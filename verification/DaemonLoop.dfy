/**
 DaemonLoop::runLoop: the checks before the loop, and the loop itself, run against a script
 of what the system shows it.  A script is finite, so a run may end with the loop still going.
 */
module DaemonLoop {
  import opened Prelude
  import opened FileSystem
  import opened LockFile
  import opened ProcessTracking
  import opened ProcessData
  import opened Decimal

  /** The build options, DF_LOCK_FILE_PATH to DF_TIMEOUT. */
  datatype Config = Config(lockPath: Option<string>, daemonPath: Option<string>, requiredParent: Option<string>,
                           verifyPathSecurity: bool, verifyParentSecurity: bool,
                           requireRunningParent: bool, timeout: int)

  /**
   What runLoop meets before the loop: the termination flag at each look, the lock, the
   directories, initLoop, the clock.
   */
  datatype Start = Start(term: bool, lockEvents: seq<OpenEvent>, newFD: nat, lockIsFree: bool,
                         daemonDirSecured: bool, parentDirSecured: bool,
                         termBeforeInit: bool, initCode: int, startTime: int)

  /** What one iteration meets; `termAtAction` is the flag when loopAction starts, `now` a time in nanoseconds. */
  datatype Tick = Tick(term: bool, table: ProcTable, now: int, termAtAction: bool, action: int)

  /** What a check makes of it: go on, return this code - with loopRunning cleared or not - or the program ends. */
  datatype Verdict = Pass | Exit(code: int, cleared: bool) | Aborted

  /** One call of loopAction. */
  datatype Call = Call(parent: Data, elapsed: int, term: bool)

  const SUCCESS := 0
  const BAD_DAEMON_PATH := 1
  const BAD_PARENT_PATH := 2
  const INSECURE_DAEMON_DIR := 3
  const INSECURE_PARENT_DIR := 4
  const DAEMON_ALREADY_RUNNING := 5
  const DAEMON_PARENT_ENDED := 6

  const NANO: int := 1_000_000_000

  function Check(ok: bool, code: int, cleared: bool): Verdict {
    if ok then Pass else Exit(code, cleared)
  }

  /** The verdict of the first item that does not pass. */
  function First(items: seq<Verdict>): Verdict {
    if items == [] then Pass else if items[0].Pass? then First(items[1..]) else items[0]
  }

  /** duration_cast to seconds, which truncates toward zero. */
  function Seconds(ns: int): int {
    if ns >= 0 then ns / NANO else -(-ns / NANO)
  }

  /** What becomes of the lock: pass, if none is configured, or it can be opened and nobody holds it. */
  function LockVerdict(config: Config, kernel: Kernel, start: Start): Verdict
    requires config.lockPath.Some? ==> |config.lockPath.value| < FileUtils.NPOS
    reads kernel
  {
    if config.lockPath.None? then Pass
    else
      match LockResult(kernel, config.lockPath.value, start.lockEvents)
      case TermReceived => Exit(SUCCESS, false)
      case CannotOpen => Exit(DAEMON_ALREADY_RUNNING, false)
      case LockOpened => Check(start.lockIsFree, DAEMON_ALREADY_RUNNING, false)
  }

  /** All checks before the loop, in order. */
  function StartItems(config: Config, running: bool, own: Data, parent: Data, lock: Verdict,
      start: Start): seq<Verdict> {
    [ Check(!running, DAEMON_ALREADY_RUNNING, false),
      Check(!start.term, SUCCESS, true),
      lock,
      Check(config.daemonPath.Some? ==> ProcessSecured(own, config.daemonPath.value), BAD_DAEMON_PATH, true),
      Check(config.requiredParent.Some? ==> ProcessSecured(parent, config.requiredParent.value), BAD_PARENT_PATH, true),
      Check(config.verifyPathSecurity ==> start.daemonDirSecured, INSECURE_DAEMON_DIR, true),
      Check(config.verifyParentSecurity ==> start.parentDirSecured, INSECURE_PARENT_DIR, true),
      Check(!start.termBeforeInit, SUCCESS, true),
      Check(start.initCode == 0, start.initCode, true) ]
  }

  /** The parent data after this iteration's check. */
  function Seen(config: Config, parent: Data, tick: Tick): Outcome {
    if config.requireRunningParent then Updated(parent, tick.table) else Got(parent)
  }

  /** The checks of one iteration, before loopAction. */
  function Guards(config: Config, parent: Data, startTime: int, tick: Tick): seq<Verdict> {
    var seen := Seen(config, parent, tick);
    [ Check(!tick.term, SUCCESS, true),
      if seen.Ends? then Aborted
      else Check(config.requireRunningParent ==> Alive(seen.data.lastState), DAEMON_PARENT_ENDED, true),
      Check(config.timeout > 0 ==> Seconds(tick.now - startTime) < config.timeout, SUCCESS, false) ]
  }

  /** All checks of the loop, in order; the last one of each iteration is the code loopAction returns. */
  function LoopItems(config: Config, parent: Data, startTime: int, ticks: seq<Tick>): seq<Verdict>
    decreases |ticks|
  {
    if ticks == [] then []
    else
      var seen := Seen(config, parent, ticks[0]);
      Guards(config, parent, startTime, ticks[0]) + [Check(ticks[0].action == 0, ticks[0].action, true)] +
      if seen.Got? then LoopItems(config, seen.data, startTime, ticks[1..]) else []
  }

  /** The calls of loopAction that a loop starting with this parent data makes. */
  function LoopCalls(config: Config, parent: Data, startTime: int, ticks: seq<Tick>): seq<Call>
    decreases |ticks|
  {
    if ticks == [] then []
    else
      var seen, tick := Seen(config, parent, ticks[0]), ticks[0];
      if seen.Ends? || !First(Guards(config, parent, startTime, tick)).Pass? then []
      else
        [Call(seen.data, tick.now - startTime, tick.termAtAction)] +
        if tick.action == 0 then LoopCalls(config, seen.data, startTime, ticks[1..]) else []
  }

  function RunItems(config: Config, running: bool, own: Data, parent: Data, lock: Verdict, start: Start,
      ticks: seq<Tick>)
    : seq<Verdict>
  {
    StartItems(config, running, own, parent, lock, start) + LoopItems(config, parent, start.startTime, ticks)
  }

  function RunCalls(config: Config, running: bool, own: Data, parent: Data, lock: Verdict, start: Start,
      ticks: seq<Tick>)
    : seq<Call>
  {
    if First(StartItems(config, running, own, parent, lock, start)).Pass?
    then LoopCalls(config, parent, start.startTime, ticks) else []
  }

  /** First skips what passes. */
  lemma {:induction false} FirstOfBoth(a: seq<Verdict>, b: seq<Verdict>)
    ensures First(a + b) == if First(a).Pass? then First(b) else First(a)
  {
    if a == [] {
      assert a + b == b;
    } else {
      assert (a + b)[1..] == a[1..] + b;
      FirstOfBoth(a[1..], b);
    }
  }

  lemma FirstFrom(items: seq<Verdict>, k: nat)
    requires k < |items|
    ensures First(items[k..]) == if items[k].Pass? then First(items[k + 1..]) else items[k]
  {
    assert items[k..][1..] == items[k + 1..];
  }

  /** The order of the checks before the loop, spelled out. */
  lemma StartDecided(config: Config, running: bool, own: Data, parent: Data, lock: Verdict, start: Start)
    ensures First(StartItems(config, running, own, parent, lock, start)) ==
            if running then Exit(DAEMON_ALREADY_RUNNING, false)
            else if start.term then Exit(SUCCESS, true)
            else if !lock.Pass? then lock
            else if config.daemonPath.Some? && !ProcessSecured(own, config.daemonPath.value) then
                Exit(BAD_DAEMON_PATH, true)
            else if config.requiredParent.Some? && !ProcessSecured(parent, config.requiredParent.value)
            then Exit(BAD_PARENT_PATH, true)
            else if config.verifyPathSecurity && !start.daemonDirSecured then Exit(INSECURE_DAEMON_DIR, true)
            else if config.verifyParentSecurity && !start.parentDirSecured then Exit(INSECURE_PARENT_DIR, true)
            else if start.termBeforeInit then Exit(SUCCESS, true)
            else if start.initCode != 0 then Exit(start.initCode, true)
            else Pass
  {
    var items := StartItems(config, running, own, parent, lock, start);
    hide First, ProcessSecured;
    assert items[0..] == items;
    FirstFrom(items, 0);
    FirstFrom(items, 1);
    FirstFrom(items, 2);
    FirstFrom(items, 3);
    FirstFrom(items, 4);
    FirstFrom(items, 5);
    FirstFrom(items, 6);
    FirstFrom(items, 7);
    FirstFrom(items, 8);
    NoItems(items);
  }

  lemma NoItems(items: seq<Verdict>)
    ensures First(items[|items|..]) == Pass
  {
  }

  /** The order of the checks of one iteration. */
  lemma GuardsDecided(config: Config, parent: Data, startTime: int, tick: Tick)
    ensures First(Guards(config, parent, startTime, tick)) ==
            var seen := Seen(config, parent, tick);
            if tick.term then Exit(SUCCESS, true)
            else if seen.Ends? then Aborted
            else if config.requireRunningParent && !Alive(seen.data.lastState) then Exit(DAEMON_PARENT_ENDED, true)
            else if config.timeout > 0 && Seconds(tick.now - startTime) >= config.timeout then Exit(SUCCESS, false)
            else Pass
  {
    var items := Guards(config, parent, startTime, tick);
    hide First, Seen, Alive, Seconds;
    assert items[0..] == items;
    FirstFrom(items, 0);
    FirstFrom(items, 1);
    FirstFrom(items, 2);
    NoItems(items);
  }

  /** One iteration of the loop, from its guards on. */
  lemma IterationDecided(config: Config, parent: Data, startTime: int, ticks: seq<Tick>)
    requires ticks != []
    ensures var seen, tick := Seen(config, parent, ticks[0]), ticks[0];
            var guard := First(Guards(config, parent, startTime, tick));
            && (seen.Ends? ==> !guard.Pass?)
            && First(LoopItems(config, parent, startTime, ticks)) ==
               (if !guard.Pass? then guard
                else if tick.action != 0 then Exit(tick.action, true)
                else First(LoopItems(config, seen.data, startTime, ticks[1..])))
            && LoopCalls(config, parent, startTime, ticks) ==
               (if !guard.Pass? then []
                else [Call(seen.data, tick.now - startTime, tick.termAtAction)] +
                     if tick.action != 0 then [] else LoopCalls(config, seen.data, startTime, ticks[1..]))
  {
    var seen, tick := Seen(config, parent, ticks[0]), ticks[0];
    GuardsDecided(config, parent, startTime, tick);
    var guards, action := Guards(config, parent, startTime, tick), [Check(tick.action == 0, tick.action, true)];
    var rest := if seen.Got? then LoopItems(config, seen.data, startTime, ticks[1..]) else [];
    assert LoopItems(config, parent, startTime, ticks) == guards + action + rest;
    hide Guards, Seen, LoopItems, Seconds, Alive;
    FirstOfBoth(guards + action, rest);
    FirstOfBoth(guards, action);
    assert action[1..] == [];
  }

  /** The k-th iteration of a loop over these ticks. */
  lemma AtTick(config: Config, parent: Data, startTime: int, ticks: seq<Tick>, k: nat)
    requires k < |ticks|
    ensures var seen, tick := Seen(config, parent, ticks[k]), ticks[k];
            var result := First(LoopItems(config, parent, startTime, ticks[k..]));
            var calls := LoopCalls(config, parent, startTime, ticks[k..]);
            if tick.term then result == Exit(SUCCESS, true) && calls == []
            else if seen.Ends? then result == Aborted && calls == []
            else if config.requireRunningParent && !Alive(seen.data.lastState)
            then result == Exit(DAEMON_PARENT_ENDED, true) && calls == []
            else if config.timeout > 0 && Seconds(tick.now - startTime) >= config.timeout
            then result == Exit(SUCCESS, false) && calls == []
            else
              var call := Call(seen.data, tick.now - startTime, tick.termAtAction);
              if tick.action != 0 then result == Exit(tick.action, true) && calls == [call]
              else
                && result == First(LoopItems(config, seen.data, startTime, ticks[k + 1..]))
                && calls == [call] + LoopCalls(config, seen.data, startTime, ticks[k + 1..])
  {
    hide LoopItems, LoopCalls, Guards, First, Seen, Alive, Seconds;
    assert ticks[k..][0] == ticks[k] && ticks[k..][1..] == ticks[k + 1..];
    IterationDecided(config, parent, startTime, ticks[k..]);
    GuardsDecided(config, parent, startTime, ticks[k]);
  }

  lemma OneMoreCall(calls: seq<Call>, call: Call, later: seq<Call>)
    ensures calls + ([call] + later) == calls + [call] + later
    ensures calls + [call] + [] == calls + [call] && calls + [] == calls
  {
  }

  lemma NoMoreCalls(calls: seq<Call>)
    ensures calls + [] == calls
  {
  }

  lemma NothingLeft(config: Config, parent: Data, startTime: int, ticks: seq<Tick>)
    requires ticks == []
    ensures First(LoopItems(config, parent, startTime, ticks)).Pass? &&
        LoopCalls(config, parent, startTime, ticks) == []
  {
  }

  lemma RunDecided(config: Config, running: bool, own: Data, parent: Data, lock: Verdict, start: Start,
      ticks: seq<Tick>)
    ensures First(RunItems(config, running, own, parent, lock, start, ticks)) ==
            var before := First(StartItems(config, running, own, parent, lock, start));
            if before.Pass? then First(LoopItems(config, parent, start.startTime, ticks)) else before
  {
    FirstOfBoth(StartItems(config, running, own, parent, lock, start),
        LoopItems(config, parent, start.startTime, ticks));
  }

  /** The order of everything in a run, up to the loop. */
  lemma RunSpelledOut(config: Config, running: bool, own: Data, parent: Data, lock: Verdict, start: Start,
      ticks: seq<Tick>)
    ensures var result := First(RunItems(config, running, own, parent, lock, start, ticks));
            var calls := RunCalls(config, running, own, parent, lock, start, ticks);
            if running then result == Exit(DAEMON_ALREADY_RUNNING, false) && calls == []
            else if start.term then result == Exit(SUCCESS, true) && calls == []
            else if !lock.Pass? then result == lock && calls == []
            else if config.daemonPath.Some? && !ProcessSecured(own, config.daemonPath.value)
            then result == Exit(BAD_DAEMON_PATH, true) && calls == []
            else if config.requiredParent.Some? && !ProcessSecured(parent, config.requiredParent.value)
            then result == Exit(BAD_PARENT_PATH, true) && calls == []
            else if config.verifyPathSecurity && !start.daemonDirSecured
            then result == Exit(INSECURE_DAEMON_DIR, true) && calls == []
            else if config.verifyParentSecurity && !start.parentDirSecured
            then result == Exit(INSECURE_PARENT_DIR, true) && calls == []
            else if start.termBeforeInit then result == Exit(SUCCESS, true) && calls == []
            else if start.initCode != 0 then result == Exit(start.initCode, true) && calls == []
            else result == First(LoopItems(config, parent, start.startTime, ticks)) &&
                 calls == LoopCalls(config, parent, start.startTime, ticks)
  {
    hide First, LoopItems, LoopCalls, StartItems, ProcessSecured;
    RunDecided(config, running, own, parent, lock, start, ticks);
    StartDecided(config, running, own, parent, lock, start);
  }

  /** What the lock's verdict comes to, told of the tree and the events alone. */
  lemma VerdictOfTree(config: Config, kernel: Kernel, start: Start)
    requires kernel.Valid() && config.lockPath.Some? && |config.lockPath.value| < FileUtils.NPOS
    ensures var path, p := config.lockPath.value, kernel.Resolve(config.lockPath.value);
            path != "" && !EndsWithSlash(path) && Quiet(start.lockEvents) ==>
              && p != []
              && LockVerdict(config, kernel, start) ==
                 if start.lockIsFree &&
                    if p in kernel.tree then !kernel.tree[p].kind.Directory? && !kernel.tree[p].kind.Socket?
                    else FileUtils.CanMake(kernel, kernel.tree, Parent(p), FileUtils.Gaps(kernel, path)) &&
                         Parent(p) !in kernel.denied
                 then Pass else Exit(DAEMON_ALREADY_RUNNING, false)
    ensures forall k: nat :: ComesFirst(start.lockEvents, k) ==>
              match start.lockEvents[k]
              case Interrupted(_) => LockVerdict(config, kernel, start) == Exit(SUCCESS, false)
              case Refused => LockVerdict(config, kernel, start) == Exit(DAEMON_ALREADY_RUNNING, false)
              case Undisturbed => true
  {
    var path := config.lockPath.value;
    hide Kernel.OpenVerdict, Kernel.Resolve, Closed, FileUtils.CanMake, FileUtils.Gaps, LockResult, Meets, Quiet,
        ComesFirst;
    if path != "" && !EndsWithSlash(path) && Quiet(start.lockEvents) {
      LockOpensIff(kernel, path, start.lockEvents);
    }
    forall k: nat | ComesFirst(start.lockEvents, k)
      ensures Meets(start.lockEvents).0 == start.lockEvents[k]
    {
      MeetsAfterSignals(start.lockEvents, k);
    }
    EventDecides(kernel, path, start.lockEvents);
  }

  class DaemonLoop {
    const config: Config
    var loopRunning: bool
    var lockFD: int
    const security: Security

    constructor (config: Config, security: Security)
      ensures this.config == config && this.security == security && !loopRunning && lockFD == 0
    {
      this.config, this.security, loopRunning, lockFD := config, security, false, 0;
    }

    /** Opens the lock file and locks it without waiting. */
    method AcquireLock(kernel: Kernel, start: Start) returns (verdict: Verdict)
      requires kernel.Valid() && config.lockPath.Some? && |config.lockPath.value| < FileUtils.NPOS
      modifies kernel`tree, this`lockFD
      ensures kernel.Valid()
      ensures verdict == old(LockVerdict(config, kernel, start))
      ensures verdict.Pass? ==> lockFD == start.newFD && start.lockIsFree &&
                                kernel.Resolve(config.lockPath.value) in kernel.tree
      // Told of the tree, when nothing but other signals interferes: the file is there, or can be made.
      ensures var path, p := config.lockPath.value, kernel.Resolve(config.lockPath.value);
              path != "" && !EndsWithSlash(path) && Quiet(start.lockEvents) ==>
                && p != []
                && verdict ==
                   if start.lockIsFree &&
                      if p in old(kernel.tree)
                      then !old(kernel.tree)[p].kind.Directory? && !old(kernel.tree)[p].kind.Socket?
                      else FileUtils.CanMake(kernel, old(kernel.tree), Parent(p), FileUtils.Gaps(kernel, path)) &&
                           Parent(p) !in kernel.denied
                   then Pass else Exit(DAEMON_ALREADY_RUNNING, false)
      // And when SIGTERM or an error comes first.
      ensures forall k: nat :: ComesFirst(start.lockEvents, k) ==>
                match start.lockEvents[k]
                case Interrupted(_) => verdict == Exit(SUCCESS, false)
                case Refused => verdict == Exit(DAEMON_ALREADY_RUNNING, false)
                case Undisturbed => true
      ensures !verdict.Pass? ==> lockFD <= 0 && verdict in {Exit(SUCCESS, false), Exit(DAEMON_ALREADY_RUNNING, false)}
      ensures verdict == Exit(SUCCESS, false) ==> lockFD == -1
    {
      VerdictOfTree(config, kernel, start);
      hide Kernel.OpenVerdict, Kernel.Resolve, Closed, FileUtils.CreateChain, FileUtils.CanMake, FileUtils.Gaps, Lookup,
           LockResult, LockAdded, Meets, Quiet, ComesFirst;
      var outcome, fd, _ := OpenLock(kernel, config.lockPath.value, start.lockEvents, start.newFD);
      lockFD := fd;
      match outcome
      case TermReceived => verdict := Exit(SUCCESS, false);
      case CannotOpen => verdict := Exit(DAEMON_ALREADY_RUNNING, false);
      case LockOpened =>
        if start.lockIsFree {
          verdict := Pass;
        } else {
          lockFD := 0;
          verdict := Exit(DAEMON_ALREADY_RUNNING, false);
        }
    }

    /** The result of a run: Pass, if the script ends with the loop still going. */
    method RunLoop(kernel: Kernel, start: Start, ticks: seq<Tick>)
      returns (result: Verdict, ghost calls: seq<Call>)
      requires kernel.Valid() && (config.lockPath.Some? ==> |config.lockPath.value| < FileUtils.NPOS)
      modifies kernel`tree, this`lockFD, this`loopRunning, security`parentProcess
      ensures kernel.Valid()
      // The result is the first item of the fixed order that does not pass.
      ensures result == First(RunItems(config, old(loopRunning), security.daemonProcess, old(security.parentProcess),
                                       old(LockVerdict(config, kernel, start)), start, ticks))
      ensures calls == RunCalls(config, old(loopRunning), security.daemonProcess, old(security.parentProcess),
                                old(LockVerdict(config, kernel, start)), start, ticks)
      ensures config.lockPath.None? ==> lockFD == old(lockFD)
      // loopAction runs only with the lock in hand.
      ensures config.lockPath.Some? && calls != [] ==> start.lockIsFree && lockFD == start.newFD
      // The flag stays up after some of the exits; and a loop that already ran touches nothing.
      ensures loopRunning == !(result.Exit? && result.cleared)
      ensures old(loopRunning) ==> result == Exit(DAEMON_ALREADY_RUNNING, false) && calls == [] &&
                                   lockFD == old(lockFD) && kernel.tree == old(kernel.tree)
    {
      ghost var own, first, lock := security.daemonProcess, security.parentProcess, LockVerdict(config, kernel, start);
      assert config.lockPath.None? ==> lock.Pass?;
      hide Kernel.OpenVerdict, Closed, LockVerdict, LoopItems, LoopCalls, First, RunItems, RunCalls, ProcessSecured;
      calls := [];
      var wasRunning := loopRunning;
      loopRunning := true;
      RunSpelledOut(config, wasRunning, own, first, lock, start, ticks);
      if wasRunning {
        return Exit(DAEMON_ALREADY_RUNNING, false), calls;
      }
      if start.term {
        loopRunning := false;
        return Exit(SUCCESS, true), calls;
      }
      if config.lockPath.Some? {
        result := AcquireLock(kernel, start);
        if !result.Pass? {
          return;
        }
      }
      if config.daemonPath.Some? && !ProcessSecured(security.daemonProcess, config.daemonPath.value) {
        loopRunning := false;
        return Exit(BAD_DAEMON_PATH, true), calls;
      }
      if config.requiredParent.Some? && !ProcessSecured(security.parentProcess, config.requiredParent.value) {
        loopRunning := false;
        return Exit(BAD_PARENT_PATH, true), calls;
      }
      if config.verifyPathSecurity && !start.daemonDirSecured {
        loopRunning := false;
        return Exit(INSECURE_DAEMON_DIR, true), calls;
      }
      if config.verifyParentSecurity && !start.parentDirSecured {
        loopRunning := false;
        return Exit(INSECURE_PARENT_DIR, true), calls;
      }
      if start.termBeforeInit {
        loopRunning := false;
        return Exit(SUCCESS, true), calls;
      }
      result, calls := MainLoop(start, ticks);
    }

    /** The end of runLoop: initLoop's result, then the loop. */
    method MainLoop(start: Start, ticks: seq<Tick>) returns (result: Verdict, ghost calls: seq<Call>)
      requires loopRunning
      modifies this`loopRunning, security`parentProcess
      ensures result == if start.initCode != 0 then Exit(start.initCode, true)
                        else First(LoopItems(config, old(security.parentProcess), start.startTime, ticks))
      ensures calls == if start.initCode != 0 then []
                       else LoopCalls(config, old(security.parentProcess), start.startTime, ticks)
      ensures loopRunning == !(result.Exit? && result.cleared)
    {
      hide Updated, LoopItems, LoopCalls, Guards, First, Alive, Seconds;
      calls := [];
      ghost var first := security.parentProcess;
      var resultCode := start.initCode;
      var k := 0;
      while resultCode == 0 && k < |ticks|
        modifies this`loopRunning, security`parentProcess
        invariant k <= |ticks|
        invariant loopRunning
        invariant start.initCode != 0 ==> resultCode == start.initCode && calls == []
        invariant start.initCode == 0 ==>
                    First(LoopItems(config, first, start.startTime, ticks)) ==
                    if resultCode != 0 then Exit(resultCode, true)
                    else First(LoopItems(config, security.parentProcess, start.startTime, ticks[k..]))
        invariant start.initCode == 0 ==>
                    LoopCalls(config, first, start.startTime, ticks) ==
                    calls + if resultCode != 0 then []
                            else LoopCalls(config, security.parentProcess, start.startTime, ticks[k..])
      {
        var tick := ticks[k];
        AtTick(config, security.parentProcess, start.startTime, ticks, k);
        if tick.term {
          loopRunning := false;
          return Exit(SUCCESS, true), calls;
        }
        if config.requireRunningParent {
          var running := security.ParentProcessRunning(tick.table);
          if running.None? {
            return Aborted, calls;
          }
          if !running.value {
            loopRunning := false;
            return Exit(DAEMON_PARENT_ENDED, true), calls;
          }
        }
        if config.timeout > 0 && Seconds(tick.now - start.startTime) >= config.timeout {
          return Exit(SUCCESS, false), calls;
        }
        ghost var call := Call(security.parentProcess, tick.now - start.startTime, tick.termAtAction);
        OneMoreCall(calls, call, LoopCalls(config, security.parentProcess, start.startTime, ticks[k + 1..]));
        calls := calls + [call];
        resultCode := tick.action;
        k := k + 1;
      }
      if resultCode == 0 {
        NothingLeft(config, security.parentProcess, start.startTime, ticks[k..]);
        NoMoreCalls(calls);
        return Pass, calls;
      }
      loopRunning := false;
      result := Exit(resultCode, true);
    }
  }

  // ---- What holds of every run ---------------------------------------------------------------

  /** A run passes all its items, or ends with one that every earlier item lets through. */
  lemma {:induction false} FirstFailureDecides(items: seq<Verdict>)
    ensures First(items).Pass? <==> forall k :: 0 <= k < |items| ==> items[k].Pass?
    ensures !First(items).Pass? ==>
              exists k :: 0 <= k < |items| && items[k] == First(items) && forall i :: 0 <= i < k ==> items[i].Pass?
  {
    if items != [] {
      FirstFailureDecides(items[1..]);
      if items[0].Pass? && !First(items).Pass? {
        var k :| 0 <= k < |items[1..]| && items[1..][k] == First(items) &&
                 forall i :: 0 <= i < k ==> items[1..][i].Pass?;
        assert items[k + 1] == First(items) && forall i :: 0 <= i < k + 1 ==> i == 0 || items[i] == items[1..][i - 1];
      }
    }
  }

  lemma TruncationMeans(ns: int, seconds: int)
    requires seconds > 0
    ensures Seconds(ns) < seconds <==> ns < seconds * NANO
  {
  }

  /** A parent that is seen alive has the path it had before. */
  lemma AliveKeepsPath(config: Config, parent: Data, tick: Tick)
    ensures var seen := Seen(config, parent, tick);
            seen.Got? && Alive(seen.data.lastState) ==> seen.data.executablePath == parent.executablePath
  {
    hide ReadProcess;
  }

  /** The c-th call is made by the c-th iteration, past its guards. */
  lemma {:induction false} CallFacts(config: Config, parent: Data, startTime: int, ticks: seq<Tick>, c: nat)
    requires c < |LoopCalls(config, parent, startTime, ticks)|
    ensures c < |ticks|
    ensures var call, tick := LoopCalls(config, parent, startTime, ticks)[c], ticks[c];
            && call.elapsed == tick.now - startTime && call.term == tick.termAtAction && !tick.term
            && (config.timeout > 0 ==> call.elapsed < config.timeout * NANO)
            && (config.requireRunningParent ==>
                  Alive(call.parent.lastState) && call.parent.executablePath == parent.executablePath)
    decreases c
  {
    hide LoopItems, First, Guards, Seconds, Alive, Updated;
    assert ticks != [];
    hide LoopCalls;
    IterationDecided(config, parent, startTime, ticks);
    GuardsDecided(config, parent, startTime, ticks[0]);
    if config.timeout > 0 {
      TruncationMeans(ticks[0].now - startTime, config.timeout);
    }
    AliveKeepsPath(config, parent, ticks[0]);
    if c > 0 {
      CallFacts(config, Seen(config, parent, ticks[0]).data, startTime, ticks[1..], c - 1);
    }
  }

  /**
   With a required parent path and a running parent required: whenever loopAction is called,
   the parent was just seen alive, and its executable is the required one - however /proc
   changed, and whichever pids were reused, since the start.
   */
  lemma ParentIdentity(config: Config, running: bool, own: Data, parent: Data, lock: Verdict, start: Start,
                       ticks: seq<Tick>, c: nat)
    requires config.requiredParent.Some? && config.requireRunningParent
    requires c < |RunCalls(config, running, own, parent, lock, start, ticks)|
    ensures var seen := RunCalls(config, running, own, parent, lock, start, ticks)[c].parent;
            seen.IsValid() && Alive(seen.lastState) && seen.executablePath == config.requiredParent.value
  {
    StartDecided(config, running, own, parent, lock, start);
    CallFacts(config, parent, start.startTime, ticks, c);
    hide LoopCalls, StartItems, First;
  }

  /** p is the parent, still running the executable it had, and neither stopped nor dead. */
  ghost predicate ParentStays(parent: Data, table: ProcTable, p: Process) {
    && IsParent(parent, table, p) && table[Print(p.pid)].exe == Some(parent.executablePath)
    && p.state !in {'T', 'Z', 'X', 'x'}
  }

  lemma ParentIsSeen(parent: Data, table: ProcTable, p: Process)
    requires ParentStays(parent, table, p)
    ensures var seen := Updated(parent, table);
            && seen.Got? && Alive(seen.data.lastState) && seen.data.processId == parent.processId
            && seen.data.executablePath == parent.executablePath
  {
    AliveIff(parent, table, p);
    IdIsTheOneAsked(table, p);
    ReadsBack(table, p);
    hide ReadDir, Print, Holds, WellNamed, InRange, Alive, StateOf;
  }

  /** Nothing of what ends the loop happens in this iteration. */
  ghost predicate Healthy(config: Config, parent: Data, startTime: int, tick: Tick, p: Process) {
    && !tick.term && tick.action == 0
    && (config.requireRunningParent ==> ParentStays(parent, tick.table, p))
    && (config.timeout > 0 ==> tick.now - startTime < config.timeout * NANO)
  }

  lemma {:induction false} HealthyLoop(config: Config, parent: Data, startTime: int, ticks: seq<Tick>, ps: seq<Process>)
    requires |ps| == |ticks| && forall k :: 0 <= k < |ticks| ==> Healthy(config, parent, startTime, ticks[k], ps[k])
    ensures |LoopCalls(config, parent, startTime, ticks)| == |ticks|
    ensures First(LoopItems(config, parent, startTime, ticks)).Pass?
    decreases |ticks|
  {
    if ticks != [] {
      IterationDecided(config, parent, startTime, ticks);
      GuardsDecided(config, parent, startTime, ticks[0]);
      if config.timeout > 0 {
        TruncationMeans(ticks[0].now - startTime, config.timeout);
      }
      assert Healthy(config, parent, startTime, ticks[0], ps[0]);
      if config.requireRunningParent {
        ParentIsSeen(parent, ticks[0].table, ps[0]);
      }
      var seen := Seen(config, parent, ticks[0]).data;
      forall k | 0 <= k < |ticks[1..]|
        ensures Healthy(config, seen, startTime, ticks[1..][k], ps[1..][k])
      {
        assert Healthy(config, parent, startTime, ticks[k + 1], ps[k + 1]);
      }
      hide LoopCalls, LoopItems, First, Guards, Seconds, Updated, Alive, Healthy;
      HealthyLoop(config, seen, startTime, ticks[1..], ps[1..]);
    }
  }

  /**
   A run in which nothing is wrong calls loopAction in every iteration: the lock was taken, the
   daemon and its parent run the required executables in secured directories, no SIGTERM came,
   initLoop and loopAction return 0, the parent keeps running, and the timeout has not passed.
   */
  lemma HealthyRunActs(config: Config, own: Data, parent: Data, lock: Verdict, start: Start, ticks: seq<Tick>,
      ps: seq<Process>)
    requires lock.Pass? && !start.term && !start.termBeforeInit && start.initCode == 0
    requires config.daemonPath.Some? ==> own.IsValid() && own.executablePath == config.daemonPath.value
    requires config.requiredParent.Some? ==> parent.IsValid() && parent.executablePath == config.requiredParent.value
    requires (config.verifyPathSecurity ==> start.daemonDirSecured) &&
        (config.verifyParentSecurity ==> start.parentDirSecured)
    requires |ps| == |ticks|
    requires forall k :: 0 <= k < |ticks| ==> Healthy(config, parent, start.startTime, ticks[k], ps[k])
    ensures |RunCalls(config, false, own, parent, lock, start, ticks)| == |ticks|
    ensures First(RunItems(config, false, own, parent, lock, start, ticks)).Pass?
  {
    RunSpelledOut(config, false, own, parent, lock, start, ticks);
    HealthyLoop(config, parent, start.startTime, ticks, ps);
    hide LoopCalls, LoopItems, First, StartItems, RunCalls, RunItems, Healthy;
  }

  /** A wrong executable is refused: the daemon's own, and the parent's. */
  lemma WrongPathIsRefused(config: Config, own: Data, parent: Data, lock: Verdict, start: Start, ticks: seq<Tick>)
    requires lock.Pass? && !start.term
    ensures var result := First(RunItems(config, false, own, parent, lock, start, ticks));
            var ownWrong := config.daemonPath.Some? && !(own.IsValid() &&
                own.executablePath == config.daemonPath.value);
            var parentWrong := config.requiredParent.Some? &&
                               !(parent.IsValid() && parent.executablePath == config.requiredParent.value);
            && (ownWrong ==> result == Exit(BAD_DAEMON_PATH, true))
            && (!ownWrong && parentWrong ==> result == Exit(BAD_PARENT_PATH, true))
            && (ownWrong || parentWrong ==> RunCalls(config, false, own, parent, lock, start, ticks) == [])
  {
    RunSpelledOut(config, false, own, parent, lock, start, ticks);
    hide LoopCalls, LoopItems, First, StartItems, RunCalls, RunItems;
  }

  /** The clock moves forward, by at least d from one look at it to the next. */
  ghost predicate Advances(start: Start, ticks: seq<Tick>, d: nat) {
    && (ticks != [] ==> start.startTime <= ticks[0].now)
    && forall k :: 0 < k < |ticks| ==> ticks[k - 1].now + d <= ticks[k].now
  }

  lemma {:induction false} AtLeast(start: Start, ticks: seq<Tick>, d: nat, c: nat)
    requires Advances(start, ticks, d) && c < |ticks|
    ensures c * d <= ticks[c].now - start.startTime
  {
    if c > 0 {
      AtLeast(start, ticks, d, c - 1);
      assert c * d == (c - 1) * d + d;
    }
  }

  /** No call starts once the timeout has passed; so there are at most ceil(timeout / d) of them. */
  lemma TimeoutBoundsCalls(config: Config, running: bool, own: Data, parent: Data, lock: Verdict, start: Start,
                           ticks: seq<Tick>, d: nat)
    requires config.timeout > 0
    ensures var calls := RunCalls(config, running, own, parent, lock, start, ticks);
            && (forall c :: 0 <= c < |calls| ==> calls[c].elapsed < config.timeout * NANO)
            && (d > 0 && Advances(start, ticks, d) ==> |calls| <= (config.timeout * NANO + d - 1) / d)
  {
    var calls := RunCalls(config, running, own, parent, lock, start, ticks);
    hide LoopCalls, StartItems, First, Advances;
    forall c | 0 <= c < |calls|
      ensures calls[c].elapsed < config.timeout * NANO
    {
      CallFacts(config, parent, start.startTime, ticks, c);
    }
    if d > 0 && Advances(start, ticks, d) && calls != [] {
      var last := |calls| - 1;
      CallFacts(config, parent, start.startTime, ticks, last);
      AtLeast(start, ticks, d, last);
      CeilingBound(last, d, config.timeout * NANO);
    }
  }

  lemma CeilingBound(n: nat, d: nat, total: int)
    requires d > 0 && n * d < total
    ensures n + 1 <= (total + d - 1) / d
  {
    assert (n + 1) * d <= total + d - 1;
  }

  /** The termination flag is never taken back. */
  ghost predicate FlagStays(ticks: seq<Tick>) {
    && (forall k :: 0 <= k < |ticks| && ticks[k].term ==> ticks[k].termAtAction)
    && (forall k :: 0 < k < |ticks| && ticks[k - 1].termAtAction ==> ticks[k].term)
  }

  /** Once the termination flag is up at most one more call starts: only the last can have seen it. */
  lemma TermStopsCalls(config: Config, running: bool, own: Data, parent: Data, lock: Verdict, start: Start,
                       ticks: seq<Tick>, c: nat)
    requires FlagStays(ticks)
    requires c < |RunCalls(config, running, own, parent, lock, start, ticks)|
    requires RunCalls(config, running, own, parent, lock, start, ticks)[c].term
    ensures c == |RunCalls(config, running, own, parent, lock, start, ticks)| - 1
  {
    hide LoopCalls, StartItems, First;
    CallFacts(config, parent, start.startTime, ticks, c);
    if c + 1 < |LoopCalls(config, parent, start.startTime, ticks)| {
      CallFacts(config, parent, start.startTime, ticks, c + 1);
    }
  }
}
