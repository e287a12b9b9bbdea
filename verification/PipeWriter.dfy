/**
 Pipe::Writer with its base ThreadedInit as an interleaved transition system: the
 controller that calls openPipe and closePipe, the init thread that opens the FIFO,
 and any number of client threads that call sendData or waitForInit.  The two mutexes
 are initMutex (the flags) and lock (pipeFile).
 */
module PipeWriter {
  import opened Prelude
  import opened Descriptors
  import opened ThreadedInit

  datatype Owner = Free | ByController | ByInit | ByClient(k: nat)

  datatype CtlPc =
    | Idle
    | OpenWait | OpenHeld
    | CancelWait | CancelHeld | Joining
    | CloseWait | CloseHeld

  datatype InitPc =
    | Unborn
    | LockWait | LockHeld | InOpen
    | PublishWait(result: bool) | PublishHeld(result: bool)
    | Notify | Finished
    | Cancelled

  /** What a client is doing: sendData, or waitForInit without a timeout. */
  datatype Job = Send(msg: Bytes) | JustWait

  /** The three flag queries of sendData, in program order. */
  datatype Query = FinishedYet | FinishedNow | Succeeded

  /** Where a client is; `Waiting` is membership in the wait set of initCondition. */
  datatype Client =
    | Ready
    | AskWait(q: Query, msg: Bytes) | AskHeld(q: Query, msg: Bytes)
    | WaitWait(job: Job) | WaitHeld(job: Job)
    | Waiting(job: Job, sawStart: bool)
    | WakeWait(job: Job, timedOut: bool) | WakeHeld(job: Job, timedOut: bool)
    | WriteWait(msg: Bytes) | WriteHeld(msg: Bytes)

  /** Whether a path was given, and whether close releases a descriptor that it reports as interrupted. */
  datatype Config = Config(hasPath: bool, eintrReleases: bool)

  datatype State = State(
    cfg: Config,
    flags: Flags, initMutex: Owner,
    pipeFile: nat, lock: Owner,
    ctl: CtlPc, init: InitPc, clients: seq<Client>,
    files: Files,
    // History: the messages whose write succeeded, those of them that went into the pipe, both
    // in lock order; and whether a closePipe returned that found initialisation already started.
    reported: seq<Bytes>, sent: seq<Bytes>, closedForGood: bool)

  ghost predicate Initial(s: State) {
    && s.flags == FRESH_FLAGS
    && s.initMutex.Free? && s.lock.Free?
    && s.pipeFile == 0
    && s.ctl.Idle? && s.init.Unborn?
    && (forall k :: 0 <= k < |s.clients| ==> s.clients[k].Ready?)
    && (forall fd: nat :: !IsMine(s.files.table, fd))
    && s.files.opens == 0 && s.files.closes == 0 && !s.files.misused
    && s.reported == [] && s.sent == [] && !s.closedForGood
  }

  // ---- Steps ---------------------------------------------------------------------------

  datatype CtlStep =
    | OpenPipe | OpenLock | OpenBody(created: bool)
    | ClosePipe | CancelLock | CancelBody | Join
    | CloseLock | CloseBody(interrupted: bool)

  datatype InitStep =
    | TakeLock | TestFile | Open(result: OpenResult)
    | PublishLock | PublishBody | NotifyAll

  datatype ClientStep =
    | BeginSend(data: Bytes) | BeginWait
    | AskLock | AskBody
    | WaitLock | WaitBody
    | Wake(timeout: bool) | WakeLock | WakeBody
    | WriteLock | WriteBody(ok: bool)

  datatype Step = Ctl(c: CtlStep) | Init(i: InitStep) | Client(k: nat, l: ClientStep) | Env(e: OthersStep)

  /**
   One round of `while (close(pipeFile) == -1)`.  EINTR may or may not have released the number;
   closing a number that is not open is another error, which ends the loop.
   */
  function CloseOnce(s: State, interrupted: bool): State {
    if !interrupted
    then s.(files := CloseFd(s.files, s.pipeFile), pipeFile := 0, ctl := Idle, lock := Free,
            closedForGood := s.closedForGood || s.flags.started)
    else if s.cfg.eintrReleases then s.(files := CloseFd(s.files, s.pipeFile))
    else s.(files := Use(s.files, s.pipeFile))
  }

  function CtlNext(s: State, c: CtlStep): Option<State> {
    match c
    case OpenPipe => if s.ctl.Idle? then Some(s.(ctl := OpenWait)) else None
    case OpenLock =>
      if s.ctl.OpenWait? && s.initMutex.Free?
      then Some(s.(ctl := OpenHeld, initMutex := ByController)) else None
    case OpenBody(created) =>
      if !s.ctl.OpenHeld? then None
      else Some(s.(flags := StartInit(s.flags, created),
                   init := if StartsThread(s.flags, created) then LockWait else s.init,
                   ctl := Idle, initMutex := Free))
    case ClosePipe =>
      // A second cancel and join of a thread that was already joined is undefined: excluded.
      if s.ctl.Idle? && !s.init.Cancelled? then Some(s.(ctl := CancelWait)) else None
    case CancelLock =>
      if s.ctl.CancelWait? && s.initMutex.Free?
      then Some(s.(ctl := CancelHeld, initMutex := ByController)) else None
    case CancelBody =>
      if !s.ctl.CancelHeld? then None
      else if MustCancel(s.flags)
      then Some(s.(flags := s.flags.(cancelRequested := true), ctl := Joining, initMutex := Free))
      else Some(s.(ctl := CloseWait, initMutex := Free))
    case Join =>
      if s.ctl.Joining? && (s.init.Finished? || s.init.Cancelled?)
      then Some(s.(ctl := CloseWait)) else None
    case CloseLock =>
      if s.ctl.CloseWait? && s.lock.Free?
      then Some(s.(ctl := CloseHeld, lock := ByController)) else None
    case CloseBody(interrupted) =>
      if !s.ctl.CloseHeld? then None
      else if s.pipeFile != 0
      then if interrupted && s.pipeFile !in s.files.table then None else Some(CloseOnce(s, interrupted))
      else Some(s.(ctl := Idle, lock := Free, closedForGood := s.closedForGood || s.flags.started))
  }

  /** notify_all: every member of the wait set goes on to take initMutex again. */
  function WakeAll(clients: seq<Client>): (woken: seq<Client>)
    ensures |woken| == |clients|
    ensures forall k :: 0 <= k < |clients| ==>
              woken[k] == if clients[k].Waiting? then WakeWait(clients[k].job, false) else clients[k]
  {
    seq(|clients|, k requires 0 <= k < |clients| =>
      if clients[k].Waiting? then WakeWait(clients[k].job, false) else clients[k])
  }

  function InitNext(s: State, i: InitStep): Option<State> {
    match i
    case TakeLock =>
      if s.init.LockWait? && s.lock.Free? then Some(s.(init := LockHeld, lock := ByInit)) else None
    case TestFile =>
      if !s.init.LockHeld? then None
      else if s.pipeFile == 0 then Some(s.(init := InOpen))
      else Some(s.(init := PublishWait(true), lock := Free))
    case Open(result) =>
      if !s.init.InOpen? then None
      else (
        match result
        case OpenCancelled =>
          // Forced unwinding destroys the lock guard.
          if s.flags.cancelRequested then Some(s.(init := Cancelled, lock := Free)) else None
        case OpenFailed => Some(s.(pipeFile := 0, init := PublishWait(false), lock := Free))
        case OpenOk(fd) =>
          if fd in s.files.table then None
          else Some(s.(files := s.files.(table := Descriptors.Open(s.files.table, fd, Mine), file := fd,
                                         opens := s.files.opens + 1),
                       pipeFile := fd, init := PublishWait(true), lock := Free))
      )
    case PublishLock =>
      if s.init.PublishWait? && s.initMutex.Free?
      then Some(s.(init := PublishHeld(s.init.result), initMutex := ByInit)) else None
    case PublishBody =>
      if !s.init.PublishHeld? then None
      else Some(s.(flags := Publish(s.flags, s.init.result), init := Notify, initMutex := Free))
    case NotifyAll =>
      if s.init.Notify? then Some(s.(init := Finished, clients := WakeAll(s.clients))) else None
  }

  /** Where sendData goes after the flag query `q`. */
  function AfterQuery(q: Query, msg: Bytes, f: Flags): Client {
    match q
    case FinishedYet => if f.finished then AskWait(Succeeded, msg) else WaitWait(Send(msg))
    case FinishedNow => if f.finished then AskWait(Succeeded, msg) else Ready
    case Succeeded => if f.succeeded then WriteWait(msg) else Ready
  }

  /** Where a client goes when its waitForInit call returns; false means that it timed out. */
  function AfterWait(job: Job, returned: bool): Client {
    match job
    case JustWait => Ready
    case Send(msg) => AskWait(if returned then Succeeded else FinishedNow, msg)
  }

  /** Client k goes to `next`; its new counter is the only thing that changes in `clients`. */
  function Move(s: State, k: nat, next: Client): State
    requires k < |s.clients|
  {
    s.(clients := s.clients[k := next])
  }

  function ClientNext(s: State, k: nat, l: ClientStep): Option<State> {
    if k >= |s.clients| then None
    else
      var c := s.clients[k];
      match l
      case BeginSend(data) =>
        if !c.Ready? then None
        else Some(Move(s, k, if s.cfg.hasPath then AskWait(FinishedYet, data) else Ready))
      case BeginWait => if c.Ready? then Some(Move(s, k, WaitWait(JustWait))) else None
      case AskLock =>
        if c.AskWait? && s.initMutex.Free?
        then Some(Move(s, k, AskHeld(c.q, c.msg)).(initMutex := ByClient(k))) else None
      case AskBody =>
        if c.AskHeld? then Some(Move(s, k, AfterQuery(c.q, c.msg, s.flags)).(initMutex := Free)) else None
      case WaitLock =>
        if c.WaitWait? && s.initMutex.Free?
        then Some(Move(s, k, WaitHeld(c.job)).(initMutex := ByClient(k))) else None
      case WaitBody =>
        if !c.WaitHeld? then None
        else if s.flags.finished then Some(Move(s, k, AfterWait(c.job, true)).(initMutex := Free))
        else Some(Move(s, k, Waiting(c.job, s.flags.started)).(initMutex := Free))
      case Wake(timeout) =>
        // Without a time limit only notify_all and spurious wake-ups end the wait.
        if c.Waiting? && (timeout ==> c.job.Send?)
        then Some(Move(s, k, WakeWait(c.job, timeout))) else None
      case WakeLock =>
        if c.WakeWait? && s.initMutex.Free?
        then Some(Move(s, k, WakeHeld(c.job, c.timedOut)).(initMutex := ByClient(k))) else None
      case WakeBody =>
        if c.WakeHeld? then Some(Move(s, k, AfterWait(c.job, !c.timedOut)).(initMutex := Free)) else None
      case WriteLock =>
        if c.WriteWait? && s.lock.Free?
        then Some(Move(s, k, WriteHeld(c.msg)).(lock := ByClient(k))) else None
      case WriteBody(ok) =>
        if !c.WriteHeld? then None
        else if !ok then Some(Move(s, k, Ready).(lock := Free))
        else if IsMine(s.files.table, s.pipeFile)
        then Some(Move(s, k, Ready).(lock := Free, reported := s.reported + [c.msg], sent := s.sent + [c.msg]))
        else if s.pipeFile in s.files.table
        then Some(Move(s, k, Ready).(lock := Free, reported := s.reported + [c.msg]))
        else None
  }

  function EnvNext(s: State, e: OthersStep): Option<State> {
    match OthersMove(s.files, e)
    case None => None
    case Some(files) => Some(s.(files := files))
  }

  function Next(s: State, step: Step): Option<State> {
    match step
    case Ctl(c) => CtlNext(s, c)
    case Init(i) => InitNext(s, i)
    case Client(k, l) => ClientNext(s, k, l)
    case Env(e) => EnvNext(s, e)
  }

  /** The state after a whole interleaving, or None when some step of it was not possible. */
  function Run(s: State, steps: seq<Step>): Option<State>
    decreases |steps|
  {
    if steps == [] then Some(s)
    else
      match Next(s, steps[0])
      case None => None
      case Some(t) => Run(t, steps[1..])
  }

  lemma RunStep(s: State, step: Step, rest: seq<Step>) returns (steps: seq<Step>)
    requires Next(s, step).Some?
    ensures steps == [step] + rest && Run(s, steps) == Run(Next(s, step).value, rest)
  {
    steps := [step] + rest;
  }

  lemma {:induction false} RunAppend(s: State, a: seq<Step>, b: seq<Step>)
    ensures Run(s, a + b) == if Run(s, a).Some? then Run(Run(s, a).value, b) else None
    decreases |a|
  {
    hide Next;
    if a == [] {
      assert a + b == b;
    } else if Next(s, a[0]).Some? {
      assert (a + b)[1..] == a[1..] + b;
      RunAppend(Next(s, a[0]).value, a[1..], b);
    }
  }

  /** A run of `start` that has come to `s` goes on with one step. */
  lemma Do(start: State, steps: seq<Step>, s: State, step: Step) returns (more: seq<Step>, t: State)
    requires Run(start, steps) == Some(s) && Next(s, step).Some?
    ensures more == steps + [step] && Some(t) == Next(s, step) == Run(start, more)
  {
    var single := RunStep(s, step, []);
    RunAppend(start, steps, [step]);
    more, t := steps + [step], Next(s, step).value;
  }

  // ---- The invariant -------------------------------------------------------------------

  predicate CtlHoldsInit(c: CtlPc) { c.OpenHeld? || c.CancelHeld? }

  predicate InitHoldsLock(i: InitPc) { i.LockHeld? || i.InOpen? }

  predicate ClientHoldsInit(c: Client) { c.AskHeld? || c.WaitHeld? || c.WakeHeld? }

  /** The init thread will not touch pipeFile again. */
  predicate InitOver(i: InitPc) { i.Unborn? || i.Notify? || i.Finished? || i.Cancelled? }

  predicate BeforeOpen(i: InitPc) { i.Unborn? || i.LockWait? || i.LockHeld? || i.InOpen? }

  /** Each mutex is held by exactly the thread whose counter says so. */
  ghost predicate Mutexes(s: State) {
    && (s.initMutex.ByController? <==> CtlHoldsInit(s.ctl))
    && (s.initMutex.ByInit? <==> s.init.PublishHeld?)
    && (s.lock.ByController? <==> s.ctl.CloseHeld?)
    && (s.lock.ByInit? <==> InitHoldsLock(s.init))
    && (s.initMutex.ByClient? ==> s.initMutex.k < |s.clients|)
    && (s.lock.ByClient? ==> s.lock.k < |s.clients|)
    && (forall k :: 0 <= k < |s.clients| ==>
          && (ClientHoldsInit(s.clients[k]) <==> s.initMutex == ByClient(k))
          && (s.clients[k].WriteHeld? <==> s.lock == ByClient(k)))
  }

  ghost predicate InitProtocol(s: State) {
    && Coherent(s.flags)
    && (s.flags.hasThread <==> !s.init.Unborn?)
    && (s.flags.finished && s.flags.hasThread <==> s.init.Notify? || s.init.Finished?)
    && (s.init.Cancelled? ==> s.flags.cancelRequested)
    && (s.flags.cancelRequested ==> s.ctl.Joining? || s.init.Finished? || s.init.Cancelled?)
    && (s.ctl.Joining? ==> s.flags.cancelRequested)
    && (s.ctl.CloseWait? || s.ctl.CloseHeld? ==> InitOver(s.init))
    && (s.closedForGood ==> s.flags.started && InitOver(s.init))
  }

  ghost predicate FileLife(s: State) {
    && s.files.opens <= 1
    && (forall fd: nat ::
          IsMine(s.files.table, fd) <==> s.files.opens == 1 && s.files.closes == 0 && fd == s.files.file)
    && (s.files.closes > 0 ==> s.files.opens == 1 && s.files.file != 0)
    && (BeforeOpen(s.init) || s.init.Cancelled? ==> s.files.opens == 0)
    && (s.init.PublishWait? || s.init.PublishHeld? ==> s.init.result == (s.files.opens == 1) && s.files.closes == 0)
    && (s.flags.finished ==> s.flags.succeeded == (s.files.opens == 1))
    && (s.files.closes == 0 ==> s.pipeFile == if s.files.opens == 1 then s.files.file else 0)
    // A number that was released stays in pipeFile only while close is retried.
    && (s.files.closes > 0 && s.pipeFile != 0 ==> s.ctl.CloseHeld? && s.cfg.eintrReleases)
    && (s.closedForGood ==> s.pipeFile == 0)
    && (s.files.misused <==> s.files.closes >= 2)
    && (!s.cfg.eintrReleases ==> s.files.closes <= 1)
    && (s.files.closes == 0 ==> s.reported == s.sent)
  }

  /** What may be said of a client, given the flags and where the init thread is. */
  predicate ClientOk(c: Client, f: Flags, init: InitPc) {
    && (c.WriteWait? || c.WriteHeld? ==> f.succeeded)
    && (c.Waiting? ==> !init.Finished?)
    && (c.Waiting? && c.sawStart ==> f.hasThread)
  }

  ghost predicate ClientsOk(s: State) {
    forall k :: 0 <= k < |s.clients| ==> ClientOk(s.clients[k], s.flags, s.init)
  }

  ghost predicate Inv(s: State) {
    Mutexes(s) && InitProtocol(s) && FileLife(s) && ClientsOk(s)
  }

  lemma InitialInv(s: State)
    requires Initial(s)
    ensures Inv(s)
  {
  }

  lemma CtlKeepsMutexes(s: State, c: CtlStep)
    requires Mutexes(s) && InitProtocol(s) && CtlNext(s, c).Some?
    ensures Mutexes(CtlNext(s, c).value)
  {
    assert StartsThread(s.flags, true) ==> s.init.Unborn?;
    hide InitProtocol;
  }

  lemma CtlKeepsProtocol(s: State, c: CtlStep)
    requires Mutexes(s) && InitProtocol(s) && CtlNext(s, c).Some?
    ensures InitProtocol(CtlNext(s, c).value)
  {
    hide Mutexes;
  }

  lemma CtlKeepsFileLife(s: State, c: CtlStep)
    requires Inv(s) && CtlNext(s, c).Some?
    ensures FileLife(CtlNext(s, c).value)
  {
    hide Mutexes;
  }

  lemma CtlKeepsClients(s: State, c: CtlStep)
    requires Inv(s) && CtlNext(s, c).Some?
    ensures ClientsOk(CtlNext(s, c).value)
  {
    hide Mutexes, FileLife;
  }

  lemma InitKeepsMutexes(s: State, i: InitStep)
    requires Mutexes(s) && InitProtocol(s) && InitNext(s, i).Some?
    ensures Mutexes(InitNext(s, i).value)
  {
    hide InitProtocol, WakeAll;
  }

  lemma InitKeepsProtocol(s: State, i: InitStep)
    requires Mutexes(s) && InitProtocol(s) && InitNext(s, i).Some?
    ensures InitProtocol(InitNext(s, i).value)
  {
    hide Mutexes;
  }

  lemma InitKeepsFileLife(s: State, i: InitStep)
    requires Inv(s) && InitNext(s, i).Some?
    ensures FileLife(InitNext(s, i).value)
  {
    hide Mutexes;
  }

  lemma InitKeepsClients(s: State, i: InitStep)
    requires Inv(s) && InitNext(s, i).Some?
    ensures ClientsOk(InitNext(s, i).value)
  {
    hide Mutexes, FileLife;
  }

  /** A client changes its own counter, takes and gives back a mutex, and touches nothing else but the history. */
  lemma ClientMovesAlone(s: State, k: nat, l: ClientStep)
    requires ClientNext(s, k, l).Some?
    ensures var t := ClientNext(s, k, l).value;
            && k < |s.clients| == |t.clients| && t.clients == s.clients[k := t.clients[k]]
            && t == s.(clients := t.clients, initMutex := t.initMutex, lock := t.lock, reported := t.reported,
                sent := t.sent)
            && t.initMutex == (if ClientHoldsInit(t.clients[k]) then ByClient(k)
                               else if ClientHoldsInit(s.clients[k]) then Free else s.initMutex)
            && t.lock == (if t.clients[k].WriteHeld? then ByClient(k)
                          else if s.clients[k].WriteHeld? then Free else s.lock)
            && (ClientHoldsInit(t.clients[k]) ==> s.initMutex.Free?)
            && (t.clients[k].WriteHeld? ==> s.lock.Free?)
  {
  }

  lemma ClientKeepsMutexes(s: State, k: nat, l: ClientStep)
    requires Mutexes(s) && InitProtocol(s) && ClientNext(s, k, l).Some?
    ensures Mutexes(ClientNext(s, k, l).value) && InitProtocol(ClientNext(s, k, l).value)
  {
    ClientMovesAlone(s, k, l);
    hide ClientNext;
  }

  lemma ClientKeepsFileLife(s: State, k: nat, l: ClientStep)
    requires Inv(s) && ClientNext(s, k, l).Some?
    ensures FileLife(ClientNext(s, k, l).value)
  {
    hide Mutexes;
  }

  lemma ClientKeepsClients(s: State, k: nat, l: ClientStep)
    requires Inv(s) && ClientNext(s, k, l).Some?
    ensures ClientsOk(ClientNext(s, k, l).value)
  {
    hide Mutexes, FileLife;
  }

  lemma EnvKeepsInv(s: State, e: OthersStep)
    requires Inv(s) && EnvNext(s, e).Some?
    ensures Inv(EnvNext(s, e).value)
  {
    assert e.OtherCloses? ==> !IsMine(s.files.table, e.fd);
  }

  lemma NextKeepsInv(s: State, step: Step)
    requires Inv(s) && Next(s, step).Some?
    ensures Inv(Next(s, step).value)
  {
    hide Mutexes, InitProtocol, FileLife, ClientsOk, CtlNext, InitNext, ClientNext, EnvNext;
    match step
    case Ctl(c) => CtlKeepsMutexes(s, c); CtlKeepsProtocol(s, c); CtlKeepsFileLife(s, c); CtlKeepsClients(s, c);
    case Init(i) => InitKeepsMutexes(s, i); InitKeepsProtocol(s, i); InitKeepsFileLife(s, i); InitKeepsClients(s, i);
    case Client(k, l) =>
      ClientKeepsMutexes(s, k, l); ClientKeepsFileLife(s, k, l); ClientKeepsClients(s, k, l);
    case Env(e) => EnvKeepsInv(s, e);
  }

  lemma NextKeepsConfig(s: State, step: Step)
    requires Next(s, step).Some?
    ensures Next(s, step).value.cfg == s.cfg
  {
  }

  lemma {:induction false} RunKeepsInv(s: State, steps: seq<Step>)
    requires Inv(s) && Run(s, steps).Some?
    ensures Inv(Run(s, steps).value) && Run(s, steps).value.cfg == s.cfg
    decreases |steps|
  {
    hide Inv, Next;
    if steps != [] {
      NextKeepsInv(s, steps[0]);
      NextKeepsConfig(s, steps[0]);
      RunKeepsInv(Next(s, steps[0]).value, steps[1..]);
    }
  }

  /** `s` is reached by some interleaving from an initial state. */
  ghost predicate Reachable(s: State) {
    exists start: State, steps: seq<Step> :: Initial(start) && Run(start, steps) == Some(s)
  }

  lemma ReachableInv(s: State)
    requires Reachable(s)
    ensures Inv(s)
  {
    hide Inv, Initial;
    var start, steps :| Initial(start) && Run(start, steps) == Some(s);
    InitialInv(start);
    RunKeepsInv(start, steps);
  }

  // ---- The two locks agree ---------------------------------------------------------------

  /**
   What initMutex guards promises what lock guards: while nothing was closed, a
   successful initialisation means that pipeFile is the descriptor open returned to
   this writer's init thread, and a client that has got as far as lock has such a
   success behind it, whatever timeouts and spurious wake-ups it went through.
   */
  lemma SuccessNamesTheFile(s: State)
    requires Reachable(s)
    ensures s.flags.succeeded && s.files.closes == 0 ==> s.pipeFile == s.files.file && IsMine(s.files.table, s.pipeFile)
    ensures forall k :: 0 <= k < |s.clients| && (s.clients[k].WriteWait? || s.clients[k].WriteHeld?) ==>
        s.flags.succeeded
    ensures s.files.closes == 0 ==> s.reported == s.sent
  {
    ReachableInv(s);
  }

  lemma PipeFileAtWrite(s: State, k: nat)
    requires Inv(s) && k < |s.clients| && s.clients[k].WriteHeld?
    ensures IsMine(s.files.table, s.pipeFile) <==> s.files.closes == 0
  {
    assert ClientOk(s.clients[k], s.flags, s.init);
  }

  /** A write that holds lock goes to the writer's own file exactly when no close came first. */
  lemma WriteReachesThePipeIff(s: State, k: nat)
    requires Reachable(s) && k < |s.clients| && s.clients[k].WriteHeld?
    ensures IsMine(s.files.table, s.pipeFile) <==> s.files.closes == 0
  {
    ReachableInv(s);
    PipeFileAtWrite(s, k);
    hide Reachable, Inv;
  }

  predicate Sending(c: Client) {
    match c
    case Ready => false
    case AskWait(_, _) => true
    case AskHeld(_, _) => true
    case WaitWait(job) => job.Send?
    case WaitHeld(job) => job.Send?
    case Waiting(job, _) => job.Send?
    case WakeWait(job, _) => job.Send?
    case WakeHeld(job, _) => job.Send?
    case WriteWait(_) => true
    case WriteHeld(_) => true
  }

  lemma QuietClientStep(s: State, k: nat, l: ClientStep)
    requires ClientNext(s, k, l).Some? && !Sending(s.clients[k]) && !l.BeginSend?
    ensures var t := ClientNext(s, k, l).value;
            t.reported == s.reported && t.sent == s.sent && !Sending(t.clients[k])
  {
  }

  lemma QuietStep(s: State, step: Step)
    requires forall k :: 0 <= k < |s.clients| ==> !Sending(s.clients[k])
    requires Next(s, step).Some? && !(step.Client? && step.l.BeginSend?)
    ensures var t := Next(s, step).value;
            && t.reported == s.reported && t.sent == s.sent
            && (forall k :: 0 <= k < |t.clients| ==> !Sending(t.clients[k]))
  {
    if step.Client? {
      ClientMovesAlone(s, step.k, step.l);
      QuietClientStep(s, step.k, step.l);
      hide ClientNext, Sending;
    }
  }

  /** With no sendData call in progress and none begun, nothing is written anywhere - across a close too. */
  lemma {:induction false} NoSendNoWrite(s: State, steps: seq<Step>)
    requires forall k :: 0 <= k < |s.clients| ==> !Sending(s.clients[k])
    requires forall k :: 0 <= k < |steps| ==> !(steps[k].Client? && steps[k].l.BeginSend?)
    requires Run(s, steps).Some?
    ensures Run(s, steps).value.reported == s.reported && Run(s, steps).value.sent == s.sent
    decreases |steps|
  {
    hide Next;
    if steps != [] {
      QuietStep(s, steps[0]);
      NoSendNoWrite(Next(s, steps[0]).value, steps[1..]);
    }
  }

  /** A write that is reported as a success. */
  predicate Writes(s: State, step: Step) {
    step.Client? && step.l == WriteBody(true) && step.k < |s.clients| && s.clients[step.k].WriteHeld?
  }

  lemma OthersRecordNothing(s: State, step: Step)
    requires Next(s, step).Some? && !Writes(s, step)
    ensures Next(s, step).value.reported == s.reported && Next(s, step).value.sent == s.sent
  {
  }

  /** A successful write is recorded as reported, and as sent exactly if nothing was closed before it. */
  lemma WriteRecorded(s: State, step: Step)
    requires Inv(s) && Next(s, step).Some?
    ensures var t := Next(s, step).value;
            if Writes(s, step)
            then t.reported == s.reported + [s.clients[step.k].msg] &&
                 t.sent == if s.files.closes == 0 then s.sent + [s.clients[step.k].msg] else s.sent
            else t.reported == s.reported && t.sent == s.sent
  {
    if Writes(s, step) {
      PipeFileAtWrite(s, step.k);
      hide Inv, CtlNext, InitNext, EnvNext;
    } else {
      OthersRecordNothing(s, step);
      hide Inv, Next;
    }
  }

  /** How many writes of a run succeeded although the pipe had been closed. */
  function LateWrites(s: State, steps: seq<Step>): nat
    requires Run(s, steps).Some?
    decreases |steps|
  {
    if steps == [] then 0
    else
      (if Writes(s, steps[0]) && s.files.closes > 0 then 1 else 0) +
      LateWrites(Next(s, steps[0]).value, steps[1..])
  }

  lemma {:induction false} HistoriesGrow(s: State, steps: seq<Step>)
    requires Inv(s) && Run(s, steps).Some?
    ensures var t := Run(s, steps).value;
            && |t.reported| - |t.sent| == |s.reported| - |s.sent| + LateWrites(s, steps)
            && (s.reported == s.sent && LateWrites(s, steps) == 0 ==> t.reported == t.sent)
    decreases |steps|
  {
    hide Inv, Next, Writes;
    if steps != [] {
      NextKeepsInv(s, steps[0]);
      WriteRecorded(s, steps[0]);
      HistoriesGrow(Next(s, steps[0]).value, steps[1..]);
    }
  }

  /** The messages reported as sent are those that went into the pipe exactly if no write succeeded after the close. */
  lemma ReportedIsSentIff(start: State, steps: seq<Step>)
    requires Initial(start) && Run(start, steps).Some?
    ensures var t := Run(start, steps).value;
            && |t.reported| == |t.sent| + LateWrites(start, steps)
            && (t.reported == t.sent <==> LateWrites(start, steps) == 0)
  {
    InitialInv(start);
    HistoriesGrow(start, steps);
    hide Run, LateWrites;
  }

  /**
   If no send is in progress when the pipe is closed, and none begins from then on, all that was
   reported was sent.
   */
  lemma SendsBeforeCloseArrive(s: State, after: seq<Step>)
    requires Reachable(s) && s.files.closes == 0 && Run(s, after).Some?
    requires forall k :: 0 <= k < |s.clients| ==> !Sending(s.clients[k])
    requires forall k :: 0 <= k < |after| ==> !(after[k].Client? && after[k].l.BeginSend?)
    ensures Run(s, after).value.reported == Run(s, after).value.sent
  {
    SuccessNamesTheFile(s);
    NoSendNoWrite(s, after);
    hide Run, Reachable;
  }

  // ---- When sendData succeeds, and when it may give up ----------------------------------------

  function ClientOf(s: State, k: nat): Client {
    if k < |s.clients| then s.clients[k] else Ready
  }

  /** sendData gives up only after a failed write, without success, or without a finish when its wait has timed out. */
  lemma GivesUpOnlyIf(s: State, step: Step, k: nat)
    requires Sending(ClientOf(s, k)) && Next(s, step).Some? && !Sending(ClientOf(Next(s, step).value, k))
    ensures step.Client? && step.k == k
    ensures var c := ClientOf(s, k);
            || (step.l.WriteBody? && c.WriteHeld?)
            || (step.l.AskBody? && c.AskHeld? && c.q.Succeeded? && !s.flags.succeeded)
            || (step.l.AskBody? && c.AskHeld? && c.q.FinishedNow? && !s.flags.finished)
  {
    if step.Client? {
      ClientMovesAlone(s, step.k, step.l);
      if step.k == k {
        hide CtlNext, InitNext, EnvNext;
      } else {
        hide ClientNext;
      }
    } else {
      hide ClientNext;
    }
  }

  /** The second look comes only after a wait that timed out. */
  lemma SecondLookAfterTimeout(s: State, step: Step, k: nat)
    requires Next(s, step).Some?
    ensures var c, next := ClientOf(s, k), ClientOf(Next(s, step).value, k);
            && (next.AskWait? && next.q.FinishedNow? && next != c ==>
                  step == Client(k, WakeBody) && c.WakeHeld? && c.timedOut)
            && (next.WakeHeld? && next.timedOut && next != c ==> c.WakeWait? && c.timedOut)
            && (next.WakeWait? && next.timedOut && next != c ==> step == Client(k, Wake(true)))
  {
    if step.Client? {
      ClientMovesAlone(s, step.k, step.l);
      if step.k == k {
        hide CtlNext, InitNext, EnvNext;
      } else {
        hide ClientNext;
      }
    } else {
      hide ClientNext;
    }
  }

  /** A send whose wait timed out looks again, and goes on if initialisation has finished meanwhile. */
  lemma TimedOutSendLooksAgain(s: State, k: nat, msg: Bytes)
    requires k < |s.clients| && s.clients[k] == WakeHeld(Send(msg), true)
    ensures var woken := ClientNext(s, k, WakeBody);
            && woken.Some? && woken.value.clients == s.clients[k := AskWait(FinishedNow, msg)] &&
                woken.value.initMutex.Free?
            && var locked := ClientNext(woken.value, k, AskLock);
            && locked.Some?
            && var asked := ClientNext(locked.value, k, AskBody);
            && asked.Some?
            && asked.value.clients[k] == if s.flags.finished then AskWait(Succeeded, msg) else Ready
  {
  }

  /**
   Client c is on its way to writing `msg`: no wait of its was cut short, and it asks for success
   only after the finish.
   */
  predicate Carries(c: Client, msg: Bytes, finished: bool) {
    match c
    case Ready => false
    case AskWait(q, m) => m == msg && (q.FinishedYet? || (q.Succeeded? && finished))
    case AskHeld(q, m) => m == msg && (q.FinishedYet? || (q.Succeeded? && finished))
    case WaitWait(job) => job == Send(msg)
    case WaitHeld(job) => job == Send(msg)
    case Waiting(job, _) => job == Send(msg)
    case WakeWait(job, timedOut) => job == Send(msg) && !timedOut && finished
    case WakeHeld(job, timedOut) => job == Send(msg) && !timedOut && finished
    case WriteWait(m) => m == msg
    case WriteHeld(m) => m == msg
  }

  /** Neither a timeout nor a spurious wake-up of client k, nor a write of its that fails. */
  predicate Undisturbed(step: Step, k: nat) {
    step.Client? && step.k == k ==> !step.l.Wake? && step.l != WriteBody(false)
  }

  lemma OwnStepCarries(s: State, k: nat, l: ClientStep, msg: Bytes)
    requires ClientNext(s, k, l).Some? && Undisturbed(Client(k, l), k) && Carries(s.clients[k], msg, s.flags.finished)
    requires s.flags.finished ==> s.flags.succeeded
    ensures var t := ClientNext(s, k, l).value;
            || Carries(t.clients[k], msg, t.flags.finished)
            || (l == WriteBody(true) && t.reported == s.reported + [msg])
  {
  }

  lemma OtherStepCarries(s: State, step: Step, k: nat, msg: Bytes)
    requires Inv(s) && k < |s.clients| && Next(s, step).Some? && !(step.Client? && step.k == k)
    requires Carries(s.clients[k], msg, s.flags.finished)
    ensures var t := Next(s, step).value;
            k < |t.clients| && Carries(t.clients[k], msg, t.flags.finished)
  {
    assert s.init.Notify? ==> s.flags.finished;
    if step.Client? {
      ClientMovesAlone(s, step.k, step.l);
      hide ClientNext, Inv, Carries;
    } else {
      hide Inv, ClientNext;
    }
  }

  /** A finished initialisation stays as it is. */
  lemma FinishStays(s: State, step: Step)
    requires Inv(s) && Next(s, step).Some? && s.flags.finished
    ensures Next(s, step).value.flags.finished && Next(s, step).value.flags.succeeded == s.flags.succeeded
  {
    if step.Client? {
      ClientMovesAlone(s, step.k, step.l);
    }
    hide Mutexes, FileLife, ClientsOk, ClientNext;
  }

  lemma {:induction false} FinishStaysRun(s: State, steps: seq<Step>)
    requires Inv(s) && Run(s, steps).Some? && s.flags.finished
    ensures Run(s, steps).value.flags.finished && Run(s, steps).value.flags.succeeded == s.flags.succeeded
    decreases |steps|
  {
    hide Inv, Next;
    if steps != [] {
      NextKeepsInv(s, steps[0]);
      FinishStays(s, steps[0]);
      FinishStaysRun(Next(s, steps[0]).value, steps[1..]);
    }
  }

  lemma {:induction false} ReportedGrows(s: State, steps: seq<Step>)
    requires Inv(s) && Run(s, steps).Some?
    ensures s.reported <= Run(s, steps).value.reported
    decreases |steps|
  {
    hide Inv, Next, Writes;
    if steps != [] {
      NextKeepsInv(s, steps[0]);
      WriteRecorded(s, steps[0]);
      ReportedGrows(Next(s, steps[0]).value, steps[1..]);
    }
  }

  lemma {:induction false} CarriedOrReported(s: State, steps: seq<Step>, k: nat, msg: Bytes)
    requires Inv(s) && k < |s.clients| && Carries(s.clients[k], msg, s.flags.finished) && Run(s, steps).Some?
    requires forall i :: 0 <= i < |steps| ==> Undisturbed(steps[i], k)
    requires Run(s, steps).value.flags.finished ==> Run(s, steps).value.flags.succeeded
    ensures var t := Run(s, steps).value;
            && |s.reported| <= |t.reported| && |t.clients| == |s.clients|
            && (Carries(t.clients[k], msg, t.flags.finished) || msg in t.reported[|s.reported|..])
    decreases |steps|
  {
    ReportedGrows(s, steps);
    if s.flags.finished {
      FinishStaysRun(s, steps);
    }
    SameClients(s, steps);
    if steps != [] {
      var step, t := steps[0], Next(s, steps[0]).value;
      NextKeepsInv(s, step);
      WriteRecorded(s, step);
      if step.Client? && step.k == k {
        OwnStepCarries(s, k, step.l, msg);
      } else {
        OtherStepCarries(s, step, k, msg);
      }
      SameClients(s, [step]);
      ReportedGrows(t, steps[1..]);
      hide Inv, Next, Carries, Undisturbed, Writes;
      if Carries(t.clients[k], msg, t.flags.finished) {
        CarriedOrReported(t, steps[1..], k, msg);
      } else {
        assert Run(s, steps).value.reported[|s.reported|] == msg;
      }
    }
  }

  lemma {:induction false} SameClients(s: State, steps: seq<Step>)
    requires Run(s, steps).Some?
    ensures |Run(s, steps).value.clients| == |s.clients|
    decreases |steps|
  {
    if steps != [] {
      if steps[0].Client? {
        ClientMovesAlone(s, steps[0].k, steps[0].l);
        hide ClientNext;
      }
      SameClients(Next(s, steps[0]).value, steps[1..]);
    }
  }

  /**
   Over every run: a sendData whose wait neither times out nor is woken spuriously, and whose write
   does not fail, never gives up unless initialisation fails.  It is still on its way, or its
   message is among those reported.
   */
  lemma SendIsReported(s: State, steps: seq<Step>, k: nat, msg: Bytes)
    requires Reachable(s) && s.cfg.hasPath && k < |s.clients| && s.clients[k].Ready?
    requires Run(s, [Client(k, BeginSend(msg))] + steps).Some?
    requires forall i :: 0 <= i < |steps| ==> Undisturbed(steps[i], k)
    ensures var t := Run(s, [Client(k, BeginSend(msg))] + steps).value;
            && |s.reported| <= |t.reported| && |t.clients| == |s.clients|
            && (!t.flags.finished || t.flags.succeeded ==>
                  Carries(t.clients[k], msg, t.flags.finished) || msg in t.reported[|s.reported|..])
  {
    var step := Client(k, BeginSend(msg));
    ReachableInv(s);
    NextKeepsInv(s, step);
    assert ([step] + steps)[1..] == steps;
    var t := Next(s, step).value;
    assert Carries(t.clients[k], msg, t.flags.finished) && t.reported == s.reported;
    hide Inv, Next, Carries, Undisturbed, Reachable;
    ReportedGrows(t, steps);
    SameClients(t, steps);
    if !Run(t, steps).value.flags.finished || Run(t, steps).value.flags.succeeded {
      CarriedOrReported(t, steps, k, msg);
    }
  }

  /** The steps of a sendData call, undisturbed, after initialisation succeeded, up to where it waits for lock. */
  lemma AsksUndisturbed(start: State, before: seq<Step>, s: State, k: nat, msg: Bytes) returns (steps: seq<Step>,
      t: State)
    requires Run(start, before) == Some(s) && s.cfg.hasPath && k < |s.clients| && s.clients[k].Ready?
    requires s.flags.finished && s.flags.succeeded && s.initMutex.Free?
    ensures Run(start, steps) == Some(t) && t == s.(clients := s.clients[k := WriteWait(msg)])
  {
    steps, t := before, s;
    hide Run;
    steps, t := Do(start, steps, t, Client(k, BeginSend(msg)));
    steps, t := Do(start, steps, t, Client(k, AskLock));
    steps, t := Do(start, steps, t, Client(k, AskBody));
    steps, t := Do(start, steps, t, Client(k, AskLock));
    steps, t := Do(start, steps, t, Client(k, AskBody));
  }

  /** After success and before any close, a client that finds the mutexes free can send: seven steps of its own. */
  lemma SendCanFinish(s: State, k: nat, msg: Bytes) returns (steps: seq<Step>, t: State)
    requires Reachable(s) && s.cfg.hasPath && k < |s.clients| && s.clients[k].Ready?
    requires s.flags.succeeded && s.files.closes == 0 && s.initMutex.Free? && s.lock.Free?
    ensures Run(s, steps) == Some(t) && t.clients == s.clients
    ensures t.reported == s.reported + [msg] && t.sent == s.sent + [msg]
  {
    SuccessNamesTheFile(s);
    ReachableInv(s);
    steps, t := AsksUndisturbed(s, [], s, k, msg);
    hide Run, Inv, Reachable;
    steps, t := Do(s, steps, t, Client(k, WriteLock));
    steps, t := Do(s, steps, t, Client(k, WriteBody(true)));
  }

  /** A sendData call before initialisation has finished, up to its wait. */
  lemma SendsEarly(start: State, msg: Bytes) returns (steps: seq<Step>, s: State)
    requires Initial(start) && start.cfg.hasPath && start.clients != []
    ensures Run(start, steps) == Some(s) && Client(0, BeginSend(msg)) in steps && Client(0, Wake(true)) !in steps
    ensures s == start.(clients := start.clients[0 := Waiting(Send(msg), false)])
  {
    steps, s := [], start;
    assert start.clients[0].Ready?;
    hide Run;
    steps, s := Do(start, steps, s, Client(0, BeginSend(msg)));
    steps, s := Do(start, steps, s, Client(0, AskLock));
    steps, s := Do(start, steps, s, Client(0, AskBody));
    steps, s := Do(start, steps, s, Client(0, WaitLock));
    steps, s := Do(start, steps, s, Client(0, WaitBody));
  }

  /**
   A spurious wake-up before initialisation has finished counts as a success of the wait: sendData
   gives up at once.
   */
  lemma SpuriousWakeupFailsSend(start: State, msg: Bytes) returns (steps: seq<Step>, s: State)
    requires Initial(start) && start.cfg.hasPath && start.clients != []
    ensures Run(start, steps) == Some(s) && Client(0, BeginSend(msg)) in steps && Client(0, Wake(true)) !in steps
    ensures s.clients == start.clients && s.reported == [] && !s.flags.finished
  {
    steps, s := SendsEarly(start, msg);
    assert start.clients[0].Ready? && start.reported == [] && start.initMutex.Free?;
    hide Run, Initial;
    steps, s := Do(start, steps, s, Client(0, Wake(false)));
    steps, s := Do(start, steps, s, Client(0, WakeLock));
    steps, s := Do(start, steps, s, Client(0, WakeBody));
    steps, s := Do(start, steps, s, Client(0, AskLock));
    steps, s := Do(start, steps, s, Client(0, AskBody));
  }

  /** The first openPipe starts the init thread, which comes to open, and with open's result to an end. */
  lemma OpenPipeStartsInit(s: State)
    requires s.ctl.Idle? && !s.flags.started && s.initMutex.Free? && s.lock.Free? && s.pipeFile == 0
    ensures var called := CtlNext(s, OpenPipe);
            && called.Some?
            && var locked := CtlNext(called.value, OpenLock);
            && locked.Some?
            && var started := CtlNext(locked.value, OpenBody(true));
            && started.Some? && started.value.ctl.Idle? && started.value.flags.hasThread && started.value.init.LockWait?
            && var taken := InitNext(started.value, TakeLock);
            && taken.Some?
            && var opening := InitNext(taken.value, TestFile);
            && opening.Some? && opening.value.init.InOpen? && opening.value.flags.finished == s.flags.finished
  {
  }

  /** The init thread reports what open said, and nothing else: success with the descriptor in pipeFile, or failure. */
  lemma InitReportsOpen(s: State, result: OpenResult)
    requires s.init.InOpen? && s.initMutex.Free? && !result.OpenCancelled?
    requires result.OpenOk? ==> result.fd !in s.files.table
    ensures var returned := InitNext(s, Open(result));
            && returned.Some? && returned.value.lock.Free?
            && (forall i :: InitNext(returned.value, i).Some? ==> i.PublishLock?)
            && var locked := InitNext(returned.value, PublishLock);
            && locked.Some?
            && var published := InitNext(locked.value, PublishBody);
            && published.Some? && published.value.flags.finished && published.value.initMutex.Free?
            && published.value.flags.succeeded == result.OpenOk?
            && published.value.pipeFile == (if result.OpenOk? then result.fd else 0)
            && InitNext(published.value, NotifyAll).Some?
  {
  }

  // ---- Waiting ---------------------------------------------------------------------------

  /**
   No lost wake-up, and start once.  A client in the wait set after initialisation has finished
   is about to be woken - unless no init thread could be created, and it began to wait before
   startInitThread.  One that saw startInitThread done waits for a thread that exists and has
   yet to run notify_all (or was cancelled).  notify_all empties the wait set; at most one init
   thread is ever created.
   */
  lemma NoLostWakeup(s: State)
    requires Reachable(s)
    ensures forall k :: 0 <= k < |s.clients| && s.clients[k].Waiting? && s.flags.finished ==>
              s.init.Notify? || (!s.flags.hasThread && !s.clients[k].sawStart)
    ensures forall k :: 0 <= k < |s.clients| && s.clients[k].Waiting? && s.clients[k].sawStart ==>
              s.flags.hasThread && !s.init.Finished?
    ensures s.flags.threadsCreated <= 1
    ensures s.init.Notify? ==>
              var t := InitNext(s, NotifyAll);
              t.Some? && forall k :: 0 <= k < |t.value.clients| ==> !t.value.clients[k].Waiting?
  {
    ReachableInv(s);
  }

  /** Client k is in the wait set, and there is no init thread that could wake it. */
  predicate Forgotten(s: State, k: nat) {
    k < |s.clients| && s.clients[k].Waiting? && s.flags.started && s.flags.finished && s.init.Unborn?
  }

  /** The exception happens: startInitThread fails to create the thread, and does not notify those who wait already. */
  lemma FailedStartForgetsWaiter(start: State) returns (steps: seq<Step>, s: State)
    requires Initial(start) && start.clients != []
    ensures Run(start, steps) == Some(s) && Forgotten(s, 0) && s.clients[0].job.JustWait?
  {
    steps, s := [], start;
    assert start.clients[0].Ready?;
    hide Run;
    steps, s := Do(start, steps, s, Client(0, BeginWait));
    steps, s := Do(start, steps, s, Client(0, WaitLock));
    steps, s := Do(start, steps, s, Client(0, WaitBody));
    steps, s := Do(start, steps, s, Ctl(OpenPipe));
    steps, s := Do(start, steps, s, Ctl(OpenLock));
    steps, s := Do(start, steps, s, Ctl(OpenBody(false)));
  }

  lemma ForgottenStep(s: State, k: nat, step: Step)
    requires Forgotten(s, k) && Next(s, step).Some? && (forall timeout :: step != Client(k, Wake(timeout)))
    ensures Forgotten(Next(s, step).value, k)
  {
    if step.Client? {
      ClientMovesAlone(s, step.k, step.l);
      if step.k != k {
        hide ClientNext;
      }
    }
  }

  /** Such a client waits for ever: only a spurious wake-up or its own timeout ends the wait, whatever else runs. */
  lemma {:induction false} ForgottenForEver(s: State, k: nat, after: seq<Step>)
    requires Forgotten(s, k) && Run(s, after).Some?
    requires forall i, timeout :: 0 <= i < |after| ==> after[i] != Client(k, Wake(timeout))
    ensures Forgotten(Run(s, after).value, k)
    decreases |after|
  {
    hide Next, Forgotten;
    if after != [] {
      ForgottenStep(s, k, after[0]);
      ForgottenForEver(Next(s, after[0]).value, k, after[1..]);
    }
  }

  /** What waitForInit returns with this step of client k, if it returns. */
  function WaitReturns(s: State, k: nat, l: ClientStep): Option<bool>
    requires k < |s.clients|
  {
    match s.clients[k]
    case WaitHeld(_) => if l.WaitBody? && s.flags.finished then Some(true) else None
    case WakeHeld(_, timedOut) => if l.WakeBody? then Some(!timedOut) else None
    case _ => None
  }

  /** waitForInit can return true although nothing was started. */
  lemma WaitReturnsTrueUnstarted(start: State) returns (steps: seq<Step>, s: State)
    requires Initial(start) && start.clients != []
    ensures Run(start, steps) == Some(s) && Next(s, Client(0, WakeBody)).Some?
    ensures !s.flags.started && WaitReturns(s, 0, WakeBody) == Some(true)
  {
    steps, s := [], start;
    assert start.clients[0].Ready?;
    hide Run;
    steps, s := Do(start, steps, s, Client(0, BeginWait));
    steps, s := Do(start, steps, s, Client(0, WaitLock));
    steps, s := Do(start, steps, s, Client(0, WaitBody));
    steps, s := Do(start, steps, s, Client(0, Wake(false)));
    steps, s := Do(start, steps, s, Client(0, WakeLock));
  }

  /** A client that joins the wait set finds the start already made, unless nothing was started at all. */
  lemma LateWaiterSawStart(s: State, k: nat)
    requires Reachable(s) && s.flags.started
    requires ClientNext(s, k, WaitBody).Some? && ClientNext(s, k, WaitBody).value.clients[k].Waiting?
    ensures ClientNext(s, k, WaitBody).value.clients[k].sawStart
    ensures s.flags.hasThread && !s.init.Notify? && !s.init.Finished?
  {
    ReachableInv(s);
  }

  // ---- Descriptors -------------------------------------------------------------------------

  /**
   open succeeds at most once.  The writer uses a number that is not its own file exactly if it
   called close again after a close that had released the number; where an interrupted close
   leaves the descriptor open that never happens.
   */
  lemma DescriptorUsedLinearly(s: State)
    requires Reachable(s)
    ensures s.files.closes > 0 ==> s.files.opens == 1
    ensures s.files.opens <= 1 && (s.files.misused <==> s.files.closes >= 2)
    ensures !s.cfg.eintrReleases ==> s.files.closes <= 1 && !s.files.misused
  {
    ReachableInv(s);
  }

  /** After a closePipe that found the start made, nothing stays open but a descriptor 0 that open returned. */
  lemma CloseLeavesOpenIffZero(s: State)
    requires Reachable(s) && s.closedForGood
    ensures (exists fd: nat :: IsMine(s.files.table, fd)) <==> s.files.opens == 1 && s.files.file == 0
    ensures s.files.opens == 1 && s.files.file != 0 ==> s.files.closes >= 1
    ensures s.files.opens == 1 && s.files.file != 0 && !s.cfg.eintrReleases ==> s.files.closes == 1
  {
    ReachableInv(s);
    assert s.files.opens == 1 && s.files.file == 0 ==> IsMine(s.files.table, 0);
  }

  // ---- Is close final? -----------------------------------------------------------------------

  lemma ClosedStep(s: State, step: Step)
    requires s.closedForGood && InitOver(s.init) && s.flags.started && s.pipeFile == 0
    requires s.files.closes > 0 ==> !IsMine(s.files.table, 0)
    requires Next(s, step).Some?
    ensures var t := Next(s, step).value;
            && t.closedForGood && t.files.opens == s.files.opens && t.files.closes == s.files.closes
            && (s.files.closes > 0 ==> t.sent == s.sent)
  {
    if step.Client? {
      ClosedClientStep(s, step.k, step.l);
    }
    hide ClientNext;
  }

  lemma ClosedClientStep(s: State, k: nat, l: ClientStep)
    requires s.pipeFile == 0 && (s.files.closes > 0 ==> !IsMine(s.files.table, 0)) && ClientNext(s, k, l).Some?
    ensures var t := ClientNext(s, k, l).value;
            && t.closedForGood == s.closedForGood && t.files == s.files && (s.files.closes > 0 ==> t.sent == s.sent)
  {
  }

  /** A closePipe that found initialisation started is final: pipeFile stays 0, nothing opens, nothing more is sent. */
  lemma {:induction false} CloseAfterStartIsFinal(s: State, after: seq<Step>)
    requires Reachable(s) && s.closedForGood && Run(s, after).Some?
    ensures var t := Run(s, after).value;
            && t.closedForGood && t.pipeFile == 0
            && t.files.opens == s.files.opens && (s.files.closes > 0 ==> t.sent == s.sent)
  {
    ReachableInv(s);
    ClosedRun(s, after);
  }

  lemma {:induction false} ClosedRun(s: State, after: seq<Step>)
    requires Inv(s) && s.closedForGood && Run(s, after).Some?
    ensures var t := Run(s, after).value;
            && t.closedForGood && t.pipeFile == 0
            && t.files.opens == s.files.opens && (s.files.closes > 0 ==> t.sent == s.sent)
    decreases |after|
  {
    assert InitOver(s.init) && s.flags.started && s.pipeFile == 0;
    assert s.files.closes > 0 ==> !IsMine(s.files.table, 0);
    hide Inv, Next, IsMine, InitOver;
    if after != [] {
      NextKeepsInv(s, after[0]);
      NextKeepsConfig(s, after[0]);
      ClosedStep(s, after[0]);
      ClosedRun(Next(s, after[0]).value, after[1..]);
    }
  }

  /** One that came before any start is not: the next openPipe opens the file as if nothing was closed. */
  lemma CloseBeforeStartIsNotFinal(s: State, fd: nat) returns (after: seq<Step>)
    requires Reachable(s) && s.ctl.Idle? && !s.flags.started
    requires s.initMutex.Free? && s.lock.Free? && fd !in s.files.table
    ensures Run(s, after).Some? && Run(s, after).value.pipeFile == fd
    ensures IsMine(Run(s, after).value.files.table, fd)
  {
    ReachableInv(s);
    var s1 := CtlNext(s, OpenPipe).value;
    var s2 := CtlNext(s1, OpenLock).value;
    var s3 := CtlNext(s2, OpenBody(true)).value;
    var s4 := InitNext(s3, TakeLock).value;
    var s5 := InitNext(s4, TestFile).value;
    after := RunStep(s5, Init(Open(OpenOk(fd))), []);
    after := RunStep(s4, Init(TestFile), after);
    after := RunStep(s3, Init(TakeLock), after);
    after := RunStep(s2, Ctl(OpenBody(true)), after);
    after := RunStep(s1, Ctl(OpenLock), after);
    after := RunStep(s, Ctl(OpenPipe), after);
  }

  // ---- No deadlock on close --------------------------------------------------------------------

  predicate Closing(c: CtlPc) {
    c.CancelWait? || c.CancelHeld? || c.Joining? || c.CloseWait? || c.CloseHeld?
  }

  /** How far the init thread is from its end. */
  function InitRank(i: InitPc): nat {
    match i
    case Unborn => 0
    case LockWait => 6
    case LockHeld => 5
    case InOpen => 4
    case PublishWait(_) => 3
    case PublishHeld(_) => 2
    case Notify => 1
    case Finished => 0
    case Cancelled => 0
  }

  function CloseRank(s: State): nat {
    InitRank(s.init) +
    (if s.initMutex.ByClient? then 1 else 0) + (if s.lock.ByClient? then 1 else 0) +
    match s.ctl
    case CancelWait => 5
    case CancelHeld => 4
    case Joining => 3
    case CloseWait => 2
    case CloseHeld => 1
    case _ => 0
  }

  /** The step with which a client gives back the mutex it holds; write is assumed to return. */
  function ClientMove(c: Client): ClientStep {
    match c
    case AskHeld(_, _) => AskBody
    case WaitHeld(_) => WaitBody
    case WakeHeld(_, _) => WakeBody
    case _ => WriteBody(false)
  }

  /** The next step of an init thread that was asked to cancel, or of the client in its way. */
  function InitOrHolder(s: State): Step
    requires s.initMutex.ByClient? ==> s.initMutex.k < |s.clients|
  {
    match s.init
    case LockWait => Init(TakeLock)
    case LockHeld => Init(TestFile)
    case InOpen => Init(Open(OpenCancelled))
    case PublishWait(_) =>
      if s.initMutex.ByClient? then Client(s.initMutex.k, ClientMove(s.clients[s.initMutex.k]))
      else Init(PublishLock)
    case PublishHeld(_) => Init(PublishBody)
    case _ => Init(NotifyAll)
  }

  /** A step of the thread that closePipe is waiting for, or of closePipe itself. */
  function Helpful(s: State): Step
    requires s.initMutex.ByClient? ==> s.initMutex.k < |s.clients|
    requires s.lock.ByClient? ==> s.lock.k < |s.clients|
  {
    match s.ctl
    case CancelWait =>
      if s.initMutex.Free? then Ctl(CancelLock)
      else if s.initMutex.ByClient? then Client(s.initMutex.k, ClientMove(s.clients[s.initMutex.k]))
      else Init(PublishBody)
    case CancelHeld => Ctl(CancelBody)
    case Joining => if s.init.Finished? || s.init.Cancelled? then Ctl(Join) else InitOrHolder(s)
    case CloseWait =>
      if s.lock.ByClient? then Client(s.lock.k, ClientMove(s.clients[s.lock.k])) else Ctl(CloseLock)
    case _ => Ctl(CloseBody(false))
  }

  /**
   While closePipe joins, the init thread is never blocked by lock, and by initMutex only behind a
   client that can move.
   */
  lemma JoinedThreadMoves(s: State)
    requires Mutexes(s) && InitProtocol(s) && ClientsOk(s)
    requires s.ctl.Joining? && !s.init.Finished? && !s.init.Cancelled?
    ensures Next(s, InitOrHolder(s)).Some?
    ensures var t := Next(s, InitOrHolder(s)).value; t.ctl.Joining? && CloseRank(t) < CloseRank(s)
  {
    assert s.lock.ByClient? ==> s.flags.succeeded by {
      assert s.lock.ByClient? ==> s.clients[s.lock.k].WriteHeld?;
    }
    if s.initMutex.ByClient? { HolderMoves(s, s.initMutex.k); }
    hide ClientsOk, ClientNext, ClientMove;
  }

  /** A client that holds a mutex can move, and gives it back with that move. */
  lemma HolderMoves(s: State, k: nat)
    requires Mutexes(s) && (s.initMutex == ByClient(k) || s.lock == ByClient(k))
    ensures var next := ClientNext(s, k, ClientMove(s.clients[k]));
            && next.Some?
            && next.value == s.(clients := next.value.clients, initMutex := next.value.initMutex,
                lock := next.value.lock)
            && (s.initMutex == ByClient(k) ==> next.value.initMutex.Free? && next.value.lock == s.lock)
            && (s.initMutex != ByClient(k) ==> next.value.lock.Free? && next.value.initMutex == s.initMutex)
  {
    var c := s.clients[k];
    assert ClientHoldsInit(c) <==> s.initMutex == ByClient(k);
    assert c.WriteHeld? <==> s.lock == ByClient(k);
    hide Mutexes;
  }

  /** Somebody can always move, and moving him brings closePipe nearer to its return. */
  lemma HelpfulStepHelps(s: State)
    requires Mutexes(s) && InitProtocol(s) && ClientsOk(s) && Closing(s.ctl)
    ensures Next(s, Helpful(s)).Some?
    ensures var t := Next(s, Helpful(s)).value;
            if Closing(t.ctl) then CloseRank(t) < CloseRank(s) else t.ctl.Idle? && (t.flags.started ==> t.closedForGood)
  {
    if s.ctl.Joining? && !s.init.Finished? && !s.init.Cancelled? {
      JoinedThreadMoves(s);
      hide Mutexes, InitProtocol, ClientsOk, Next, CloseRank, InitOrHolder;
    } else {
      if s.initMutex.ByClient? { HolderMoves(s, s.initMutex.k); }
      if s.lock.ByClient? { HolderMoves(s, s.lock.k); }
      hide ClientsOk, ClientNext, ClientMove;
    }
  }

  /**
   No deadlock: from every reachable state inside a closePipe - clients in the middle of
   anything - there is a continuation of at most 13 steps, none of them by the environment,
   in which that closePipe returns.
   */
  lemma {:induction false} CloseCanReturn(s: State) returns (steps: seq<Step>)
    requires Reachable(s) && Closing(s.ctl)
    ensures |steps| <= 13
    ensures forall k :: 0 <= k < |steps| ==> !steps[k].Env?
    ensures Run(s, steps).Some? && Run(s, steps).value.ctl.Idle?
  {
    ReachableInv(s);
    steps := CloseByHelping(s);
  }

  lemma {:induction false} CloseByHelping(s: State) returns (steps: seq<Step>)
    requires Inv(s) && Closing(s.ctl)
    ensures |steps| <= CloseRank(s)
    ensures forall k :: 0 <= k < |steps| ==> !steps[k].Env?
    ensures Run(s, steps).Some? && Run(s, steps).value.ctl.Idle?
    decreases CloseRank(s)
  {
    var step := Helpful(s);
    HelpfulStepHelps(s);
    NextKeepsInv(s, step);
    NextKeepsConfig(s, step);
    var t := Next(s, step).value;
    hide Mutexes, InitProtocol, FileLife, ClientsOk, Next, CloseRank;
    var rest := [];
    if Closing(t.ctl) {
      rest := CloseByHelping(t);
    }
    steps := RunStep(s, step, rest);
  }

  // ---- The retry of an interrupted close -------------------------------------------------------

  /** openPipe, and the init thread's open returning `fd`; nobody else moves. */
  lemma OpensFd(start: State, fd: nat) returns (steps: seq<Step>, s: State)
    requires Initial(start) && fd !in start.files.table
    ensures Run(start, steps) == Some(s)
    ensures s == start.(flags := Flags(true, true, true, true, false, 1), pipeFile := fd, init := Finished,
                        clients := WakeAll(start.clients),
                        files := start.files.(table := Descriptors.Open(start.files.table, fd, Mine), file := fd,
                            opens := 1))
  {
    steps, s := [], start;
    steps, s := Do(start, steps, s, Ctl(OpenPipe));
    steps, s := Do(start, steps, s, Ctl(OpenLock));
    steps, s := Do(start, steps, s, Ctl(OpenBody(true)));
    steps, s := Do(start, steps, s, Init(TakeLock));
    steps, s := Do(start, steps, s, Init(TestFile));
    steps, s := Do(start, steps, s, Init(Open(OpenOk(fd))));
    steps, s := Do(start, steps, s, Init(PublishLock));
    steps, s := Do(start, steps, s, Init(PublishBody));
    steps, s := Do(start, steps, s, Init(NotifyAll));
    hide Run, WakeAll;
  }

  /** Then closePipe, up to where it holds lock. */
  lemma OpensAndCloses(start: State, fd: nat) returns (steps: seq<Step>, s: State)
    requires Initial(start) && fd !in start.files.table
    ensures Run(start, steps) == Some(s)
    ensures s == start.(flags := Flags(true, true, true, true, false, 1), pipeFile := fd, init := Finished,
                        ctl := CloseHeld, lock := ByController, clients := WakeAll(start.clients),
                        files := start.files.(table := Descriptors.Open(start.files.table, fd, Mine), file := fd,
                            opens := 1))
  {
    steps, s := OpensFd(start, fd);
    steps, s := Do(start, steps, s, Ctl(ClosePipe));
    steps, s := Do(start, steps, s, Ctl(CancelLock));
    steps, s := Do(start, steps, s, Ctl(CancelBody));
    steps, s := Do(start, steps, s, Ctl(CloseLock));
    hide Run, WakeAll;
  }

  /** Descriptor 0, if that is what open returns, is still open when closePipe has returned. */
  lemma ZeroStaysOpen(start: State) returns (steps: seq<Step>, s: State)
    requires Initial(start) && 0 !in start.files.table
    ensures Run(start, steps) == Some(s) && s.closedForGood && IsMine(s.files.table, 0)
  {
    steps, s := OpensAndCloses(start, 0);
    steps, s := Do(start, steps, s, Ctl(CloseBody(false)));
    hide Run;
  }

  /** A closePipe that returned; and descriptor 0 is some other file of the process. */
  lemma OpensClosesAndTakesZero(start: State, fd: nat) returns (steps: seq<Step>, s: State)
    requires Initial(start) && fd > 0 && fd !in start.files.table
    ensures Run(start, steps) == Some(s) && s.cfg == start.cfg && s.reported == [] && s.sent == []
    ensures s.pipeFile == 0 && 0 in s.files.table && s.files.table[0] == Other
    ensures s.flags.finished && s.flags.succeeded && s.initMutex.Free? && s.lock.Free?
    ensures |s.clients| == |start.clients| && forall k :: 0 <= k < |s.clients| ==> s.clients[k].Ready?
  {
    steps, s := OpensAndCloses(start, fd);
    assert !IsMine(start.files.table, 0);
    hide Run;
    steps, s := Do(start, steps, s, Ctl(CloseBody(false)));
    if 0 !in s.files.table {
      steps, s := Do(start, steps, s, Env(OtherOpens(0)));
    }
  }

  /** sendData after a closePipe: it succeeds, but writes to whatever descriptor 0 is. */
  lemma LateWriteIsLost(start: State, msg: Bytes) returns (steps: seq<Step>, s: State)
    requires Initial(start) && start.cfg.hasPath && start.clients != []
    ensures Run(start, steps) == Some(s) && s.reported == [msg] && s.sent == []
  {
    var fd := FreeNumber(start.files.table);
    steps, s := OpensClosesAndTakesZero(start, fd);
    hide Run;
    steps, s := AsksUndisturbed(start, steps, s, 0, msg);
    steps, s := Do(start, steps, s, Client(0, WriteLock));
    steps, s := Do(start, steps, s, Client(0, WriteBody(true)));
  }

  /**
   Where an interrupted close releases the number, other code of the process can be given it
   before the retry; the retry then closes that code's file.
   */
  lemma RetryClosesAnother(start: State) returns (steps: seq<Step>, s: State)
    requires Initial(start) && start.cfg.eintrReleases
    ensures Run(start, steps) == Some(s)
    ensures s.ctl.CloseHeld? && s.pipeFile in s.files.table && s.files.table[s.pipeFile] == Other
    ensures var t := Next(s, Ctl(CloseBody(false)));
            t.Some? && t.value.files.misused && s.pipeFile !in t.value.files.table
  {
    var fd := FreeNumber(start.files.table);
    steps, s := OpensAndCloses(start, fd);
    steps, s := Do(start, steps, s, Ctl(CloseBody(true)));
    steps, s := Do(start, steps, s, Env(OtherOpens(fd)));
    hide Run;
  }

  /**
   Over all runs, the writer never touches a number that is not its own exactly if EINTR leaves the
   descriptor open.
   */
  lemma RetryIsSafeIff(start: State)
    requires Initial(start)
    ensures (forall steps :: Run(start, steps).Some? ==> !Run(start, steps).value.files.misused) <==>
        !start.cfg.eintrReleases
  {
    InitialInv(start);
    hide Initial, Mutexes, InitProtocol, ClientsOk, Next, Run;
    if start.cfg.eintrReleases {
      var steps, s := RetryClosesAnother(start);
      var more, t := Do(start, steps, s, Ctl(CloseBody(false)));
    } else {
      forall steps | Run(start, steps).Some?
        ensures !Run(start, steps).value.files.misused
      {
        RunKeepsInv(start, steps);
      }
    }
  }
}
