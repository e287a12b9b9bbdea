/** DaemonControl: the daemon as a child process of the application that starts, stops and awaits it. */
module DaemonControl {
  import opened Prelude

  /** How a process ends. */
  datatype End = Exited(code: int) | Killed(signal: nat, core: bool)

  predicate Possible(end: End) {
    end.Killed? ==> 1 <= end.signal < 127
  }

  /** The status word waitpid reports: of an exit code only the low eight bits. */
  function StatusWord(end: End): nat {
    match end
    case Exited(code) => (code % 256) * 256
    case Killed(signal, core) => signal + if core then 128 else 0
  }

  predicate WIfExited(status: int) { status % 128 == 0 }

  predicate WIfSignaled(status: int) { 1 <= status % 128 < 127 }

  function WExitStatus(status: int): int { status / 256 % 256 }

  /** Any exit code arrives modulo 256, negative ones too; a killed process reads as exit code 0. */
  lemma CodeArrives(end: End)
    requires Possible(end)
    ensures WIfExited(StatusWord(end)) <==> end.Exited?
    ensures WIfSignaled(StatusWord(end)) <==> end.Killed?
    ensures WExitStatus(StatusWord(end)) == if end.Exited? then end.code % 256 else 0
  {
  }

  const SIGTERM := 15
  const SIGKILL := 9

  /** A forked process: its number in order of birth, and how it ended, if it did. */
  datatype Child = Child(number: nat, end: Option<End>)

  /** Whom a signal reaches: an unreaped child, or whatever else the pid names. */
  datatype Target = ToChild(number: nat) | ToOther(pid: int)

  datatype Signal = Signal(target: Target, signal: int)

  type Children = map<int, Child>

  /** Every child ever born is either waiting to be reaped, under one pid, or was reaped once. */
  ghost predicate Bookkept(children: Children, born: nat, reaped: seq<nat>) {
    && (forall pid :: pid in children ==> pid > 0 && children[pid].number < born && children[pid].number !in reaped)
    && (forall pid :: pid in children && children[pid].end.Some? ==> Possible(children[pid].end.value))
    && (forall p, q :: p in children && q in children && children[p].number == children[q].number ==> p == q)
    && (forall i, j :: 0 <= i < j < |reaped| ==> reaped[i] != reaped[j])
    && (forall n: nat :: n < born <==> n in reaped || HasNumber(children, n))
  }

  ghost predicate HasNumber(children: Children, n: nat) {
    exists pid :: pid in children && children[pid].number == n
  }

  lemma BirthKeepsBooks(children: Children, born: nat, reaped: seq<nat>, pid: int)
    requires Bookkept(children, born, reaped) && pid > 0 && pid !in children
    ensures Bookkept(children[pid := Child(born, None)], born + 1, reaped)
  {
    var now := children[pid := Child(born, None)];
    assert born !in reaped && !HasNumber(children, born);
    forall n: nat
      ensures n < born + 1 <==> n in reaped || HasNumber(now, n)
    {
      if HasNumber(children, n) {
        var p :| p in children && children[p].number == n;
        assert p in now && now[p].number == n;
      }
      assert now[pid].number == born;
    }
  }

  lemma EndKeepsBooks(children: Children, born: nat, reaped: seq<nat>, pid: int, end: Option<End>)
    requires Bookkept(children, born, reaped) && pid in children && (end.Some? ==> Possible(end.value))
    ensures Bookkept(children[pid := children[pid].(end := end)], born, reaped)
  {
    var now := children[pid := children[pid].(end := end)];
    forall n: nat
      ensures HasNumber(children, n) <==> HasNumber(now, n)
    {
      if HasNumber(children, n) {
        var p :| p in children && children[p].number == n;
        assert p in now && now[p].number == n;
      }
      if HasNumber(now, n) {
        var p :| p in now && now[p].number == n;
        assert p in children && children[p].number == n;
      }
    }
  }

  lemma ReapKeepsBooks(children: Children, born: nat, reaped: seq<nat>, pid: int)
    requires Bookkept(children, born, reaped) && pid in children
    ensures Bookkept(children - {pid}, born, reaped + [children[pid].number])
  {
    var now := children - {pid};
    forall n: nat
      ensures HasNumber(children, n) <==> n == children[pid].number || HasNumber(now, n)
    {
      if HasNumber(children, n) {
        var p :| p in children && children[p].number == n;
        assert p == pid || (p in now && now[p].number == n);
      }
      if HasNumber(now, n) {
        var p :| p in now && now[p].number == n;
        assert p in children && children[p].number == n;
      }
    }
  }

  /** The kernel's side: the unreaped children by pid.  Pids are reused freely once a child is reaped. */
  class Processes {
    var children: Children
    var born: nat
    ghost var reaped: seq<nat>
    ghost var signals: seq<Signal>

    constructor ()
      ensures Valid() && children == map[] && born == 0 && reaped == [] && signals == []
    {
      children, born, reaped, signals := map[], 0, [], [];
    }

    ghost predicate Valid()
      reads this
    {
      Bookkept(children, born, reaped)
    }

    /** The new pid is any that names no process; None is a failure. */
    method Fork(pid: Option<int>) returns (result: int)
      requires Valid() && (pid.Some? ==> pid.value > 0 && pid.value !in children)
      modifies this
      ensures Valid() && reaped == old(reaped) && signals == old(signals)
      ensures pid.None? ==> result == -1 && children == old(children) && born == old(born)
      ensures pid.Some? ==> result == pid.value && born == old(born) + 1 &&
                            children == old(children)[pid.value := Child(old(born), None)]
    {
      hide Bookkept;
      match pid
      case None => result := -1;
      case Some(p) =>
        result := p;
        BirthKeepsBooks(children, born, reaped, p);
        children := children[p := Child(born, None)];
        born := born + 1;
    }

    /** The running child may end of it, or of its own accord. */
    method Kill(pid: int, signal: int, reaction: Option<End>)
      requires Valid() && (reaction.Some? ==> Possible(reaction.value))
      modifies this
      ensures Valid() && reaped == old(reaped) && born == old(born)
      ensures signals == old(signals) +
                         [Signal(if pid in old(children) then ToChild(old(children)[pid].number) else ToOther(pid),
                             signal)]
      ensures children == if pid in old(children) && old(children)[pid].end.None?
                          then old(children)[pid := old(children)[pid].(end := reaction)] else old(children)
    {
      hide Bookkept;
      signals := signals + [Signal(if pid in children then ToChild(children[pid].number) else ToOther(pid), signal)];
      if pid in children && children[pid].end.None? {
        EndKeepsBooks(children, born, reaped, pid, reaction);
        children := children[pid := children[pid].(end := reaction)];
      }
    }

    /**
     waitpid on one pid: 0 for a child that still runs, unless told to block until it ends as
     `later` says; the pid and the status word, once, of one that ended; else -1.
     */
    method WaitPid(pid: int, block: bool, later: End) returns (result: int, status: int)
      requires Valid() && Possible(later)
      requires pid > 0 || children == map[]
      modifies this
      ensures Valid() && signals == old(signals) && born == old(born)
      ensures pid !in old(children) ==> result == -1 && children == old(children) && reaped == old(reaped)
      ensures pid in old(children) && old(children)[pid].end.None? && !block ==>
                result == 0 && children == old(children) && reaped == old(reaped)
      ensures pid in old(children) && (old(children)[pid].end.Some? || block) ==>
                var child := old(children)[pid];
                && result == pid && children == old(children) - {pid} && reaped == old(reaped) + [child.number]
                && status == StatusWord(if child.end.Some? then child.end.value else later)
    {
      hide Bookkept;
      status := 0;
      if pid !in children {
        return -1, status;
      }
      var child := children[pid];
      if child.end.None? && !block {
        return 0, status;
      }
      ReapKeepsBooks(children, born, reaped, pid);
      reaped := reaped + [child.number];
      children := children - {pid};
      status := StatusWord(if child.end.Some? then child.end.value else later);
      result := pid;
    }

    /** A child ends by itself. */
    method ChildEnds(pid: int, end: End)
      requires Valid() && Possible(end)
      modifies this
      ensures Valid() && signals == old(signals) && born == old(born) && reaped == old(reaped)
      ensures children == if pid in old(children) && old(children)[pid].end.None?
                          then old(children)[pid := old(children)[pid].(end := Some(end))] else old(children)
    {
      hide Bookkept;
      if pid in children && children[pid].end.None? {
        EndKeepsBooks(children, born, reaped, pid, Some(end));
        children := children[pid := children[pid].(end := Some(end))];
      }
    }
  }

  /** What exitCode becomes when this end is noticed by a WNOHANG check or by stopDaemon. */
  function CodeOf(end: End): int {
    if end.Exited? then end.code % 256 else 0
  }

  /** What runLoop returned reaches the application unchanged exactly if it fits in eight bits. */
  lemma CodeUnchangedIff(number: nat, code: int, before: int)
    ensures AwaitedCode(Some(Child(number, None)), Exited(code), before) == code <==> 0 <= code < 256
    ensures AwaitedCode(Some(Child(number, Some(Exited(code)))), Exited(0), before) == code <==> 0 <= code < 256
  {
  }

  /** A map with no other key than this one. */
  lemma OnlyTheDaemon(children: Children, pid: int)
    requires forall p :: p in children ==> p == pid
    ensures children.Keys == (if pid in children then {pid} else {}) && (pid !in children ==> children == map[])
    ensures children - {pid} == map[]
  {
    forall p
      ensures p in children.Keys <==> p == pid && pid in children
    {
    }
  }

  /** What waitToExit returns: a daemon killed while it waits leaves the code as it was before. */
  function AwaitedCode(daemon: Option<Child>, later: End, before: int): int {
    match daemon
    case None => before
    case Some(child) =>
      if child.end.Some? then CodeOf(child.end.value)
      else if later.Exited? then later.code % 256
      else before
  }

  class DaemonControl {
    const kernel: Processes
    var daemonProcess: int
    var exitCode: int

    constructor (kernel: Processes)
      requires kernel.Valid() && kernel.children == map[]
      ensures Valid() && this.kernel == kernel && daemonProcess == 0 && exitCode == 0
    {
      this.kernel, daemonProcess, exitCode := kernel, 0, 0;
    }

    /** daemonProcess names the one unreaped child - or there is none, and it is 0, or -1 after a failed fork. */
    ghost predicate Valid()
      reads this, kernel
    {
      && kernel.Valid() && daemonProcess >= -1
      && kernel.children.Keys == if daemonProcess > 0 then {daemonProcess} else {}
    }

    /** As Valid, but the child may have been reaped already, as inside waitToExit. */
    ghost predicate Loose()
      reads this, kernel
    {
      && kernel.Valid() && daemonProcess >= -1
      && (daemonProcess <= 0 ==> kernel.children == map[])
      && forall pid :: pid in kernel.children ==> pid == daemonProcess
    }

    /** The daemon's own process. */
    ghost function Daemon(): Option<Child>
      reads this, kernel
    {
      if daemonProcess in kernel.children then Some(kernel.children[daemonProcess]) else None
    }

    /** The parent's side of startDaemon; the forked side becomes the daemon. */
    method StartDaemon(pid: Option<int>)
      requires Valid() && (pid.Some? ==> pid.value > 0)
      modifies this`daemonProcess, kernel
      ensures Valid() && kernel.signals == old(kernel.signals) && kernel.reaped == old(kernel.reaped)
      ensures old(daemonProcess) != 0 ==>
                daemonProcess == old(daemonProcess) && kernel.children == old(kernel.children) &&
                    kernel.born == old(kernel.born)
      ensures old(daemonProcess) == 0 && pid.Some? ==>
                daemonProcess == pid.value && Daemon() == Some(Child(old(kernel.born), None))
      ensures old(daemonProcess) == 0 && pid.None? ==> daemonProcess == -1
    {
      if daemonProcess != 0 {
        return;
      }
      daemonProcess := kernel.Fork(pid);
    }

    method IsDaemonRunning() returns (running: bool)
      requires Loose()
      modifies this, kernel
      ensures Valid() && kernel.signals == old(kernel.signals) && kernel.born == old(kernel.born)
      ensures running == (old(Daemon()).Some? && old(Daemon()).value.end.None?)
      ensures running ==> daemonProcess == old(daemonProcess) && kernel.children == old(kernel.children)
      ensures !running ==> daemonProcess == 0
      ensures if old(Daemon()).Some? && !running
              then exitCode == CodeOf(old(Daemon()).value.end.value) &&
                   kernel.reaped == old(kernel.reaped) + [old(Daemon()).value.number]
              else exitCode == old(exitCode) && kernel.reaped == old(kernel.reaped)
    {
      if daemonProcess == 0 {
        return false;
      }
      if Daemon().Some? && Daemon().value.end.Some? {
        CodeArrives(Daemon().value.end.value);
      }
      OnlyTheDaemon(kernel.children, daemonProcess);
      var waitResult, daemonStatus := kernel.WaitPid(daemonProcess, false, Exited(0));
      if waitResult == -1 {
        daemonProcess := 0;
        return false;
      }
      if waitResult == 0 {
        return true;
      }
      assert kernel.children == map[];
      daemonProcess := 0;
      exitCode := WExitStatus(daemonStatus);
      return false;
    }

    /** `onTerm` is what SIGTERM makes of a running daemon in two seconds, `onKill` how it ends if that was nothing. */
    method StopDaemon(onTerm: Option<End>, onKill: End)
      requires Valid() && (onTerm.Some? ==> Possible(onTerm.value)) && Possible(onKill)
      modifies this, kernel
      ensures Valid() && daemonProcess == 0 && kernel.born == old(kernel.born)
      ensures old(daemonProcess) == 0 ==>
                kernel.signals == old(kernel.signals) && kernel.reaped == old(kernel.reaped) &&
                    exitCode == old(exitCode)
      // After a failed fork SIGTERM goes to pid -1, that is, to every process.
      ensures old(daemonProcess) == -1 ==>
                && kernel.signals == old(kernel.signals) + [Signal(ToOther(-1), SIGTERM)]
                && kernel.reaped == old(kernel.reaped) && exitCode == old(exitCode)
      ensures old(daemonProcess) > 0 ==>
                var daemon := old(Daemon()).value;
                var end := if daemon.end.Some? then daemon.end else onTerm;
                && kernel.reaped == old(kernel.reaped) + [daemon.number]
                && exitCode == CodeOf(if end.Some? then end.value else onKill)
                && kernel.signals == old(kernel.signals) + [Signal(ToChild(daemon.number), SIGTERM)] +
                                     if end.None? then [Signal(ToChild(daemon.number), SIGKILL)] else []
    {
      hide Bookkept, Possible, StatusWord;
      if daemonProcess != 0 {
        kernel.Kill(daemonProcess, SIGTERM, onTerm);
        var running := IsDaemonRunning();
        if running {
          kernel.Kill(daemonProcess, SIGKILL, None);
          CodeArrives(onKill);
          var _, daemonStatus := kernel.WaitPid(daemonProcess, true, onKill);
          assert kernel.children == map[];
          exitCode := WExitStatus(daemonStatus);
          daemonProcess := 0;
        }
      }
    }

    method GetDaemonProcessID() returns (id: int)
      requires Valid()
      modifies this, kernel
      ensures Valid() && kernel.signals == old(kernel.signals)
      ensures id == if old(Daemon()).Some? && old(Daemon()).value.end.None? then old(daemonProcess) else 0
      ensures id == daemonProcess && old(kernel.reaped) <= kernel.reaped
      ensures id != 0 ==> kernel.children == old(kernel.children)
    {
      var running := IsDaemonRunning();
      id := if running then daemonProcess else 0;
    }

    method GetExitCode() returns (code: int)
      requires Valid()
      modifies this, kernel
      ensures Valid() && kernel.signals == old(kernel.signals)
      ensures code == match old(Daemon())
                      case None => old(exitCode)
                      case Some(child) => if child.end.None? then 0 else CodeOf(child.end.value)
      ensures daemonProcess == if old(Daemon()).Some? && old(Daemon()).value.end.None? then old(daemonProcess) else 0
      ensures old(kernel.reaped) <= kernel.reaped && (daemonProcess != 0 ==> kernel.children == old(kernel.children))
    {
      var running := IsDaemonRunning();
      code := if running then 0 else exitCode;
    }

    /** `later` is how a daemon that still runs will end. */
    method WaitToExit(later: End) returns (code: int, ghost rounds: nat)
      requires Valid() && Possible(later)
      modifies this, kernel
      ensures Valid() && daemonProcess == 0 && kernel.signals == old(kernel.signals) && kernel.born == old(kernel.born)
      ensures rounds <= 1 && code == exitCode == AwaitedCode(old(Daemon()), later, old(exitCode))
      ensures kernel.reaped == old(kernel.reaped) + if old(Daemon()).Some? then [old(Daemon()).value.number] else []
    {
      hide Bookkept, Possible, StatusWord;
      rounds := 0;
      CodeArrives(later);
      var running := IsDaemonRunning();
      ghost var numbers := if old(Daemon()).Some? then [old(Daemon()).value.number] else [];
      while running
        invariant kernel.signals == old(kernel.signals) && kernel.born == old(kernel.born) && Valid()
        invariant running ==> rounds == 0 && daemonProcess == old(daemonProcess) && exitCode == old(exitCode)
        invariant running ==> kernel.children == old(kernel.children) && kernel.reaped == old(kernel.reaped)
        invariant running ==> Daemon().Some? && Daemon().value.end.None?
        invariant !running ==> daemonProcess == 0 && rounds <= 1 && kernel.reaped == old(kernel.reaped) + numbers &&
                               exitCode == AwaitedCode(old(Daemon()), later, old(exitCode))
        decreases running
      {
        rounds := rounds + 1;
        var _, daemonStatus := kernel.WaitPid(daemonProcess, true, later);
        assert forall pid :: pid !in kernel.children;
        if WIfExited(daemonStatus) {
          daemonProcess := 0;
          exitCode := WExitStatus(daemonStatus);
          break;
        }
        running := IsDaemonRunning();
      }
      code := exitCode;
    }
  }

  /** The calls of the public interface, and the daemon ending of its own accord in between. */
  datatype Action =
    | Start(pid: Option<int>) | Stop(onTerm: Option<End>, onKill: End) | Await(later: End)
    | AskRunning | AskId | AskCode | DaemonEnds(end: End)

  predicate Legal(action: Action) {
    match action
    case Start(pid) => pid.Some? ==> pid.value > 0
    case Stop(onTerm, onKill) => (onTerm.Some? ==> Possible(onTerm.value)) && Possible(onKill)
    case Await(later) => Possible(later)
    case DaemonEnds(end) => Possible(end)
    case _ => true
  }

  ghost predicate OwnOnly(signals: seq<Signal>) {
    forall k :: 0 <= k < |signals| ==> signals[k].target.ToChild?
  }

  /**
   What a controller can be about to do: start, look after a daemon that runs or has ended, or use
   a failed fork's -1.
   */
  datatype Mode = NoDaemon | DaemonRuns | DaemonEnded | ForkFailed

  ghost function ModeOf(control: DaemonControl): Mode
    reads control, control.kernel
  {
    if control.daemonProcess == 0 then NoDaemon
    else if control.Daemon().None? then ForkFailed
    else if control.Daemon().value.end.None? then DaemonRuns else DaemonEnded
  }

  function NextMode(mode: Mode, action: Action): Mode {
    match action
    case Start(pid) => if !mode.NoDaemon? then mode else if pid.Some? then DaemonRuns else ForkFailed
    case Stop(_, _) => NoDaemon
    case Await(_) => NoDaemon
    case DaemonEnds(_) => if mode.DaemonRuns? then DaemonEnded else mode
    case _ => if mode.DaemonRuns? then DaemonRuns else NoDaemon
  }

  /**
   Some stopDaemon comes after a startDaemon whose fork failed, with no other call in between
   than further startDaemon calls.
   */
  predicate StopsFailedFork(mode: Mode, actions: seq<Action>)
    decreases |actions|
  {
    actions != [] &&
    ((mode.ForkFailed? && actions[0].Stop?) || StopsFailedFork(NextMode(mode, actions[0]), actions[1..]))
  }

  lemma {:induction false} NoFailedForkNoHarm(mode: Mode, actions: seq<Action>)
    requires !mode.ForkFailed? && forall k :: 0 <= k < |actions| && actions[k].Start? ==> actions[k].pid.Some?
    ensures !StopsFailedFork(mode, actions)
    decreases |actions|
  {
    if actions != [] {
      NoFailedForkNoHarm(NextMode(mode, actions[0]), actions[1..]);
    }
  }

  method Perform(control: DaemonControl, action: Action)
    requires control.Valid() && Legal(action)
    modifies control, control.kernel
    ensures control.Valid()
    ensures ModeOf(control) == NextMode(old(ModeOf(control)), action)
    ensures OwnOnly(control.kernel.signals) <==>
              old(OwnOnly(control.kernel.signals)) && !(old(ModeOf(control)).ForkFailed? && action.Stop?)
    ensures old(control.kernel.reaped) <= control.kernel.reaped
  {
    hide Bookkept, Possible;
    assert control.daemonProcess > 0 ==> control.daemonProcess in control.kernel.children.Keys;
    match action
    case Start(pid) => control.StartDaemon(pid);
    case Stop(onTerm, onKill) => PerformStop(control, onTerm, onKill);
    case Await(later) =>
      var _, _ := control.WaitToExit(later);
    case AskRunning =>
      var _ := control.IsDaemonRunning();
    case AskId =>
      var _ := control.GetDaemonProcessID();
    case AskCode =>
      var _ := control.GetExitCode();
    case DaemonEnds(end) =>
      control.kernel.ChildEnds(control.daemonProcess, end);
      assert control.kernel.children.Keys == old(control.kernel.children.Keys);
  }

  method PerformStop(control: DaemonControl, onTerm: Option<End>, onKill: End)
    requires control.Valid() && (onTerm.Some? ==> Possible(onTerm.value)) && Possible(onKill)
    modifies control, control.kernel
    ensures control.Valid() && control.daemonProcess == 0
    ensures OwnOnly(control.kernel.signals) <==>
              old(OwnOnly(control.kernel.signals)) && !old(ModeOf(control)).ForkFailed?
    ensures old(control.kernel.reaped) <= control.kernel.reaped
  {
    hide Bookkept, Possible;
    assert control.daemonProcess > 0 ==> control.daemonProcess in control.kernel.children.Keys;
    ghost var was := control.kernel.signals;
    control.StopDaemon(onTerm, onKill);
    ghost var added := control.kernel.signals[|was|..];
    assert control.kernel.signals == was + added;
    assert old(ModeOf(control)).ForkFailed? ==> added == [Signal(ToOther(-1), SIGTERM)] && !added[0].target.ToChild?;
    assert !old(ModeOf(control)).ForkFailed? ==> OwnOnly(added);
    OwnOnlyOfBoth(was, added);
  }

  lemma OwnOnlyOfBoth(a: seq<Signal>, b: seq<Signal>)
    ensures OwnOnly(a + b) <==> OwnOnly(a) && OwnOnly(b)
  {
    assert forall k :: 0 <= k < |a| ==> (a + b)[k] == a[k];
    assert forall k :: 0 <= k < |b| ==> (a + b)[|a| + k] == b[k];
  }

  /**
   Over any sequence of calls there is at most one unreaped daemon, it is the one daemonProcess
   names, and each is reaped at most once.  Every signal goes to that daemon exactly if no
   stopDaemon follows a failed fork directly.
   */
  method AnyCalls(control: DaemonControl, actions: seq<Action>)
    requires control.Valid() && OwnOnly(control.kernel.signals)
    requires forall k :: 0 <= k < |actions| ==> Legal(actions[k])
    modifies control, control.kernel
    ensures control.Valid() && |control.kernel.children| <= 1
    ensures control.daemonProcess > 0 <==> control.daemonProcess in control.kernel.children
    ensures forall i, j :: 0 <= i < j < |control.kernel.reaped| ==> control.kernel.reaped[i] != control.kernel.reaped[j]
    ensures OwnOnly(control.kernel.signals) <==> !StopsFailedFork(old(ModeOf(control)), actions)
  {
    var k := 0;
    hide OwnOnly, Legal, ModeOf, NextMode;
    while k < |actions|
      invariant k <= |actions| && control.Valid()
      invariant OwnOnly(control.kernel.signals) && !StopsFailedFork(ModeOf(control), actions[k..]) <==>
                !StopsFailedFork(old(ModeOf(control)), actions)
    {
      assert actions[k..][1..] == actions[k + 1..];
      Perform(control, actions[k]);
      k := k + 1;
    }
    assert |control.kernel.children| == |control.kernel.children.Keys|;
  }

  /** When fork fails, stopDaemon signals every process. */
  method FailedFork() returns (control: DaemonControl)
    ensures fresh(control) && fresh(control.kernel) && control.Valid()
    ensures control.kernel.signals == [Signal(ToOther(-1), SIGTERM)]
  {
    var kernel := new Processes();
    control := new DaemonControl(kernel);
    control.StartDaemon(None);
    control.StopDaemon(None, Exited(0));
  }
}
