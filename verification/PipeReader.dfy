/**
 Pipe::Reader with its two bases, ThreadedInit and InputReader, as an interleaved
 transition system.  Three threads take atomic steps in any order: the controller
 that calls openPipe and closePipe, the init thread that opens the FIFO, and the
 thread that runs readLoop.  The environment adds bytes to the FIFO and opens and
 closes descriptors that belong to unrelated code in the same process.
 */
module PipeReader {
  import opened Prelude
  import opened Descriptors
  import opened ThreadedInit

  /** InputReader::State. */
  datatype Phase = Initializing | Opening | Opened | Reading | Processing | Closed | Failed

  datatype Owner = Free | ByController | ByInit | ByLoop

  /** The value of InputReader::threadID, as far as pthread_equal can tell. */
  datatype ThreadId = NoThread | LoopThread

  /** Where the controller is.  A `Wait` counter is just before a lock, a `Held` one after it. */
  datatype CtlPc =
    | Idle
    | OpenWait | OpenHeld
    | CancelWait | CancelHeld | Joining
    | StopWait | StopHeld | StopClosed

  /** Where the init thread is; `FileReturned` carries the value returned by openFile. */
  datatype InitPc =
    | Unborn
    | BeginWait | BeginHeld
    | InOpen | FileReturned(fd: nat)
    | CheckWait | CheckHeld | Create
    | UndoWait | UndoHeld
    | PublishWait(result: bool) | PublishHeld(result: bool)
    | Notify | Finished
    | Cancelled

  /** Where the readLoop thread is; `Deliver` carries what read left in the buffer. */
  datatype LoopPc =
    | NotStarted
    | Test | LoopWait
    | Enter | Select | Read | Deliver(chunk: Bytes) | Relock | Unlock
    | Exited

  /** Fixed at construction. */
  datatype Config = Config(hasPath: bool, bufSize: nat)

  /** The fields of InputReader and Pipe::Reader that change. */
  datatype Fields = Fields(phase: Phase, inputFile: nat, threadId: ThreadId, listener: bool)

  /** The FIFO, all that ever entered it, and where the bytes taken from it went. */
  datatype Stream = Stream(fifo: Bytes, arrived: Bytes, delivered: seq<Bytes>, dropped: Bytes)

  datatype State = State(
    cfg: Config,
    flags: Flags, initMutex: Owner,
    r: Fields, readerMutex: Owner,
    ctl: CtlPc, init: InitPc, loop: LoopPc,
    files: Files, stream: Stream,
    closeReturned: bool)

  ghost predicate Initial(s: State) {
    && s.flags == FRESH_FLAGS
    && s.initMutex.Free? && s.readerMutex.Free?
    && s.r == Fields(Initializing, 0, NoThread, false)
    && s.ctl.Idle? && s.init.Unborn? && s.loop.NotStarted?
    && (forall fd: nat :: !IsMine(s.files.table, fd))
    && s.files.opens == 0 && s.files.closes == 0 && !s.files.misused
    && s.stream.arrived == s.stream.fifo && s.stream.delivered == [] && s.stream.dropped == []
    && !s.closeReturned
  }

  // ---- Steps -----------------------------------------------------------------------

  datatype CtlStep =
    | OpenPipe(hasListener: bool)
    | OpenLock
    | OpenBody(created: bool)
    | ClosePipe
    | CancelLock | CancelBody | Join
    | StopLock | StopBody | StopClear

  datatype InitStep =
    | BeginLock | BeginBody
    | Open(result: OpenResult) | AssignFile
    | CheckLock | CheckBody | CreateLoop(created: bool)
    | UndoLock | UndoBody
    | PublishLock | PublishBody | NotifyAll

  datatype LoopStep =
    | TestFile | LockLoop | EnterBody
    | SelectReady(ready: bool)
    | ReadData(n: nat) | ReadNothing(isError: bool)
    | DeliverChunk | StopOnLoop | LockAgain
    | Release

  datatype EnvStep = Arrive(bytes: Bytes) | Others(o: OthersStep)

  datatype Step = Ctl(c: CtlStep) | Init(i: InitStep) | Loop(l: LoopStep) | Env(e: EnvStep)

  /** What closeInputFile does to the descriptors; it also leaves 0 in inputFile. */
  function CloseInputFile(f: Files, inputFile: nat): Files {
    if inputFile != 0 then CloseFd(f, inputFile) else f
  }

  function CtlNext(s: State, c: CtlStep): Option<State> {
    match c
    case OpenPipe(hasListener) =>
      if !s.ctl.Idle? then None
      else if !s.cfg.hasPath then Some(s)
      else Some(s.(r := s.r.(listener := hasListener), ctl := OpenWait))
    case OpenLock =>
      if s.ctl.OpenWait? && s.initMutex.Free?
      then Some(s.(ctl := OpenHeld, initMutex := ByController)) else None
    case OpenBody(created) =>
      if !s.ctl.OpenHeld? then None
      else Some(s.(flags := StartInit(s.flags, created),
                   init := if StartsThread(s.flags, created) then BeginWait else s.init,
                   ctl := Idle, initMutex := Free))
    case ClosePipe =>
      // A second cancel and join of a thread that was already joined is undefined: excluded.
      if !s.ctl.Idle? || s.init.Cancelled? then None
      else if !s.cfg.hasPath then Some(s.(closeReturned := true))
      else Some(s.(ctl := CancelWait))
    case CancelLock =>
      if s.ctl.CancelWait? && s.initMutex.Free?
      then Some(s.(ctl := CancelHeld, initMutex := ByController)) else None
    case CancelBody =>
      if !s.ctl.CancelHeld? then None
      else if MustCancel(s.flags)
      then Some(s.(flags := s.flags.(cancelRequested := true), ctl := Joining, initMutex := Free))
      else Some(s.(ctl := StopWait, initMutex := Free))
    case Join =>
      if s.ctl.Joining? && (s.init.Finished? || s.init.Cancelled?)
      then Some(s.(ctl := StopWait)) else None
    case StopLock =>
      // The controller is never the thread in threadID, so stopReading takes the lock.
      if s.ctl.StopWait? && s.readerMutex.Free?
      then Some(s.(ctl := StopHeld, readerMutex := ByController)) else None
    case StopBody =>
      if !s.ctl.StopHeld? then None
      else if s.r.phase.Closed? || s.r.phase.Failed?
      then Some(s.(ctl := Idle, readerMutex := Free, closeReturned := true))
      else if s.r.inputFile != 0
      then Some(s.(files := CloseFd(s.files, s.r.inputFile), ctl := StopClosed))
      else Some(s.(r := s.r.(phase := Closed), ctl := Idle, readerMutex := Free, closeReturned := true))
    case StopClear =>
      if !s.ctl.StopClosed? then None
      else Some(s.(r := s.r.(inputFile := 0, phase := Closed), ctl := Idle, readerMutex := Free, closeReturned := true))
  }

  function InitNext(s: State, i: InitStep): Option<State> {
    match i
    case BeginLock =>
      if s.init.BeginWait? && s.readerMutex.Free?
      then Some(s.(init := BeginHeld, readerMutex := ByInit)) else None
    case BeginBody =>
      if !s.init.BeginHeld? then None
      else if s.r.phase.Closed? || s.r.phase.Failed?
      then Some(s.(init := PublishWait(false), readerMutex := Free))
      else if !s.r.phase.Initializing?
      then Some(s.(init := PublishWait(true), readerMutex := Free))
      else Some(s.(r := s.r.(phase := Opening), init := InOpen, readerMutex := Free))
    case Open(result) =>
      if !s.init.InOpen? then None
      else (
        match result
        case OpenCancelled =>
          if s.flags.cancelRequested then Some(s.(init := Cancelled)) else None
        case OpenFailed => Some(s.(init := FileReturned(0)))
        case OpenOk(fd) =>
          if fd in s.files.table then None
          else Some(s.(init := FileReturned(fd),
                       files := s.files.(table := Descriptors.Open(s.files.table, fd, Mine), file := fd,
                                         opens := s.files.opens + 1)))
      )
    case AssignFile =>
      if !s.init.FileReturned? then None
      else Some(s.(r := s.r.(inputFile := s.init.fd), init := CheckWait))
    case CheckLock =>
      if s.init.CheckWait? && s.readerMutex.Free?
      then Some(s.(init := CheckHeld, readerMutex := ByInit)) else None
    case CheckBody =>
      if !s.init.CheckHeld? then None
      else if s.r.inputFile == 0
      then Some(s.(r := s.r.(phase := Failed), init := PublishWait(false), readerMutex := Free))
      else Some(s.(r := s.r.(phase := Opened), init := Create, readerMutex := Free))
    case CreateLoop(created) =>
      if !s.init.Create? then None
      else if created
      then Some(s.(r := s.r.(threadId := LoopThread), loop := Test, init := PublishWait(true)))
      else Some(s.(init := UndoWait))
    case UndoLock =>
      if s.init.UndoWait? && s.readerMutex.Free?
      then Some(s.(init := UndoHeld, readerMutex := ByInit)) else None
    case UndoBody =>
      if !s.init.UndoHeld? then None
      else Some(s.(files := CloseInputFile(s.files, s.r.inputFile), r := s.r.(threadId := NoThread, inputFile := 0),
                   init := PublishWait(false), readerMutex := Free))
    case PublishLock =>
      if s.init.PublishWait? && s.initMutex.Free?
      then Some(s.(init := PublishHeld(s.init.result), initMutex := ByInit)) else None
    case PublishBody =>
      if !s.init.PublishHeld? then None
      else Some(s.(flags := Publish(s.flags, s.init.result), init := Notify, initMutex := Free))
    case NotifyAll =>
      if s.init.Notify? then Some(s.(init := Finished)) else None
  }

  function LoopNext(s: State, l: LoopStep): Option<State> {
    match l
    case TestFile =>
      if !s.loop.Test? then None
      else Some(s.(loop := if s.r.inputFile != 0 then LoopWait else Exited))
    case LockLoop =>
      if s.loop.LoopWait? && s.readerMutex.Free?
      then Some(s.(loop := Enter, readerMutex := ByLoop)) else None
    case EnterBody =>
      if !s.loop.Enter? then None
      else Some(s.(r := s.r.(phase := Reading), loop := if s.r.inputFile != 0 then Select else Unlock))
    case SelectReady(ready) =>
      if !s.loop.Select? then None
      else if ready then Some(s.(files := Use(s.files, s.r.inputFile), r := s.r.(phase := Processing), loop := Read))
      else Some(s.(files := Use(s.files, s.r.inputFile), loop := Unlock))
    case ReadData(n) =>
      if s.loop.Read? && 1 <= n <= s.cfg.bufSize && n <= |s.stream.fifo|
      then Some(s.(files := Use(s.files, s.r.inputFile),
                   stream := s.stream.(fifo := s.stream.fifo[n..]),
                   loop := Deliver(s.stream.fifo[..n])))
      else None
    case ReadNothing(isError) =>
      // read reports end of file when no byte is left, and also when it is asked for none.
      if s.loop.Read? && (isError || s.stream.fifo == [] || s.cfg.bufSize == 0)
      then Some(s.(files := CloseInputFile(Use(s.files, s.r.inputFile), s.r.inputFile),
                   r := s.r.(inputFile := 0, phase := Closed), loop := Unlock))
      else None
    case DeliverChunk =>
      if s.loop.Deliver? && s.r.listener
      then Some(s.(stream := s.stream.(delivered := s.stream.delivered + [s.loop.chunk]), loop := Unlock))
      else None
    case StopOnLoop =>
      // No listener: stopReading runs on the thread that already holds readerMutex.
      if !s.loop.Deliver? || s.r.listener then None
      else if s.r.threadId.LoopThread?
      then Some(s.(stream := s.stream.(dropped := s.stream.dropped + s.loop.chunk),
                   files := CloseInputFile(s.files, s.r.inputFile),
                   r := s.r.(inputFile := 0, phase := Closed), loop := Unlock))
      else Some(s.(stream := s.stream.(dropped := s.stream.dropped + s.loop.chunk), loop := Relock))
    case LockAgain =>
      if s.loop.Relock? && s.readerMutex.Free?
      then Some(s.(files := CloseInputFile(s.files, s.r.inputFile),
                   r := s.r.(inputFile := 0, phase := Closed), readerMutex := ByLoop, loop := Unlock))
      else None
    case Release =>
      if s.loop.Unlock? then Some(s.(loop := Test, readerMutex := Free)) else None
  }

  function EnvNext(s: State, e: EnvStep): Option<State> {
    match e
    case Arrive(bytes) =>
      Some(s.(stream := s.stream.(fifo := s.stream.fifo + bytes, arrived := s.stream.arrived + bytes)))
    case Others(o) =>
      match OthersMove(s.files, o)
      case None => None
      case Some(files) => Some(s.(files := files))
  }

  /** The state after one step, or None when the thread cannot take it. */
  function Next(s: State, step: Step): Option<State> {
    match step
    case Ctl(c) => CtlNext(s, c)
    case Init(i) => InitNext(s, i)
    case Loop(l) => LoopNext(s, l)
    case Env(e) => EnvNext(s, e)
  }

  /** The state after a whole interleaving, or None when some step of it was not possible. */
  function Run(s: State, steps: seq<Step>): Option<State>
    decreases |steps|
  {
    if steps == [] then Some(s)
    else
      match Next(s, steps[0])
      case None => None
      case Some(t) => Run(t, steps[1..])
  }

  lemma {:induction false} RunAppend(s: State, a: seq<Step>, b: seq<Step>)
    ensures Run(s, a + b) == if Run(s, a).Some? then Run(Run(s, a).value, b) else None
    decreases |a|
  {
    hide Next;
    if a == [] {
      assert a + b == b;
    } else if Next(s, a[0]).Some? {
      assert (a + b)[1..] == a[1..] + b;
      RunAppend(Next(s, a[0]).value, a[1..], b);
    }
  }

  /** A run of `start` that has come to `s` goes on with one step. */
  lemma Do(start: State, steps: seq<Step>, s: State, step: Step) returns (more: seq<Step>, t: State)
    requires Run(start, steps) == Some(s) && Next(s, step).Some?
    ensures more == steps + [step] && Some(t) == Next(s, step) == Run(start, more)
  {
    hide Next;
    RunAppend(start, steps, [step]);
    assert [step][1..] == [];
    more, t := steps + [step], Next(s, step).value;
  }

  // ---- The invariant -----------------------------------------------------------------

  predicate LoopHolds(l: LoopPc) {
    l.Enter? || l.Select? || l.Read? || l.Deliver? || l.Relock? || l.Unlock?
  }

  /** The init thread has not reached open yet. */
  predicate BeforeOpen(i: InitPc) {
    i.Unborn? || i.BeginWait? || i.BeginHeld? || i.InOpen?
  }

  /** The init thread is where openFile's result may still be unchecked. */
  predicate AroundOpen(i: InitPc) {
    i.InOpen? || i.FileReturned? || i.CheckWait? || i.CheckHeld?
  }

  /** The init thread will not touch the reader again. */
  predicate InitOver(i: InitPc) {
    i.Unborn? || i.Notify? || i.Finished? || i.Cancelled?
  }

  predicate CtlHoldsInit(c: CtlPc) { c.OpenHeld? || c.CancelHeld? }

  predicate CtlHoldsReader(c: CtlPc) { c.StopHeld? || c.StopClosed? }

  predicate InitHoldsReader(i: InitPc) { i.BeginHeld? || i.CheckHeld? || i.UndoHeld? }

  /** Each mutex is held by exactly the thread whose counter says so. */
  ghost predicate Mutexes(s: State) {
    && !(CtlHoldsInit(s.ctl) && s.init.PublishHeld?)
    && s.initMutex == (if CtlHoldsInit(s.ctl) then ByController else if s.init.PublishHeld? then ByInit else Free)
    && !(CtlHoldsReader(s.ctl) && InitHoldsReader(s.init))
    && !(CtlHoldsReader(s.ctl) && LoopHolds(s.loop))
    && !(InitHoldsReader(s.init) && LoopHolds(s.loop))
    && s.readerMutex == (if CtlHoldsReader(s.ctl) then ByController
                         else if InitHoldsReader(s.init) then ByInit
                         else if LoopHolds(s.loop) then ByLoop else Free)
  }

  ghost predicate InitProtocol(s: State) {
    && Coherent(s.flags)
    && (s.flags.hasThread <==> !s.init.Unborn?)
    && (s.flags.finished && s.flags.hasThread <==> s.init.Notify? || s.init.Finished?)
    && (s.init.Cancelled? ==> s.flags.cancelRequested)
    && (s.flags.cancelRequested ==> s.ctl.Joining? || s.init.Finished? || s.init.Cancelled?)
    && (s.ctl.Joining? ==> s.flags.cancelRequested && !s.init.Unborn?)
    && (s.ctl.StopWait? || s.ctl.StopHeld? || s.ctl.StopClosed? ==> InitOver(s.init))
    && (!s.cfg.hasPath ==> s.ctl.Idle? && s.init.Unborn?)
    // What the thread returns is whether a read loop was started.
    && (s.loop.NotStarted? <==> s.r.threadId.NoThread?)
    && (s.init.PublishWait? || s.init.PublishHeld? ==> s.init.result == !s.loop.NotStarted?)
    && (s.flags.succeeded <==> !s.loop.NotStarted? && s.flags.finished)
    && (!s.loop.NotStarted? ==> s.init.PublishWait? || s.init.PublishHeld? || s.init.Notify? || s.init.Finished?)
    && !s.loop.Relock?
    && (s.init.Unborn? || s.init.BeginWait? || s.init.BeginHeld? ==> s.r.phase.Initializing? || s.r.phase.Closed?)
  }

  ghost predicate FileLife(s: State) {
    && OwnFileOnly(s.files)
    && (BeforeOpen(s.init) || s.init.Cancelled? ==> s.files.opens == 0)
    // A number in inputFile is open, except between the controller's close and its reset.
    && (s.r.inputFile != 0 ==> s.files.opens == 1 && s.r.inputFile == s.files.file)
    && (s.r.inputFile != 0 ==> (s.files.closes == 0 <==> !s.ctl.StopClosed?))
    && (s.ctl.StopClosed? ==> s.r.inputFile != 0)
    && (s.init.FileReturned? ==> s.r.inputFile == 0 && s.files.closes == 0)
    && (s.init.FileReturned? && s.files.opens == 1 ==> s.init.fd == s.files.file)
    && (s.init.FileReturned? && s.files.opens == 0 ==> s.init.fd == 0)
    // Once the result was stored, a cleared inputFile means: failed, descriptor 0, or closed.
    && (!s.init.FileReturned? && s.r.inputFile == 0 && s.files.opens == 1 && s.files.file != 0 ==> s.files.closes == 1)
    && (s.init.Create? || s.init.UndoWait? || s.init.UndoHeld? ==> s.r.inputFile != 0)
  }

  ghost predicate Phases(s: State) {
    && (AroundOpen(s.init) ==> s.r.phase.Opening?)
    && (s.init.Create? || s.init.UndoWait? || s.init.UndoHeld? ==> s.r.phase.Opened?)
    && (s.r.phase.Closed? || s.r.phase.Failed? ==> s.r.inputFile == 0)
    && (s.loop.Select? || s.loop.Read? || s.loop.Deliver? ==> s.r.inputFile != 0)
    && (s.loop.Select? ==> s.r.phase.Reading?)
    && (s.loop.Read? || s.loop.Deliver? ==> s.r.phase.Processing?)
  }

  /** What a closePipe that has returned leaves behind. */
  ghost predicate Ended(s: State) {
    && s.r.inputFile == 0
    && !AroundOpen(s.init)
    && !(s.init.Create? || s.init.UndoWait? || s.init.UndoHeld?)
    && (s.cfg.hasPath && (s.init.Unborn? || s.init.BeginWait? || s.init.BeginHeld?) ==> s.r.phase.Closed?)
    && !(s.loop.Select? || s.loop.Read? || s.loop.Deliver?)
  }

  /** The bytes that read has taken and processInput has not passed on yet. */
  function InHand(l: LoopPc): Bytes {
    if l.Deliver? then l.chunk else []
  }

  /** All bytes the stream accounts for, in the order they entered it. */
  function Accounted(st: Stream, inHand: Bytes): Bytes {
    Flatten(st.delivered) + st.dropped + inHand + st.fifo
  }

  ghost predicate BytesKept(st: Stream, l: LoopPc, bufSize: nat) {
    && Accounted(st, InHand(l)) == st.arrived
    && (forall k :: 0 <= k < |st.delivered| ==> 1 <= |st.delivered[k]| <= bufSize)
    && (l.Deliver? ==> 1 <= |l.chunk| <= bufSize)
  }

  /** A chunk is dropped at most once: the pipe is closed for good by the same step. */
  ghost predicate DropsEndReading(s: State) {
    s.stream.dropped != [] ==> s.r.inputFile == 0 && !s.loop.NotStarted?
  }

  /** The locking and thread discipline; it does not depend on what the descriptors hold. */
  ghost predicate Protocol(s: State) {
    Mutexes(s) && InitProtocol(s)
  }

  /** What the discipline achieves for the file. */
  ghost predicate FileSafe(s: State) {
    && FileLife(s) && Phases(s) && DropsEndReading(s)
    && (s.closeReturned ==> Ended(s))
  }

  ghost predicate Inv(s: State) {
    Protocol(s) && FileSafe(s) && BytesKept(s.stream, s.loop, s.cfg.bufSize)
  }

  lemma InitialInv(s: State)
    requires Initial(s)
    ensures Inv(s)
  {
  }

  lemma CtlKeepsProtocol(s: State, c: CtlStep)
    requires Protocol(s) && CtlNext(s, c).Some?
    ensures InitProtocol(CtlNext(s, c).value)
  {
    hide Mutexes;
  }

  lemma CtlKeepsMutexes(s: State, c: CtlStep)
    requires Protocol(s) && CtlNext(s, c).Some?
    ensures Mutexes(CtlNext(s, c).value)
  {
    assert StartsThread(s.flags, true) ==> s.init.Unborn?;
    hide InitProtocol;
  }

  lemma InitKeepsProtocol(s: State, i: InitStep)
    requires Protocol(s) && InitNext(s, i).Some?
    ensures InitProtocol(InitNext(s, i).value)
  {
    hide Mutexes;
  }

  lemma InitKeepsMutexes(s: State, i: InitStep)
    requires Protocol(s) && InitNext(s, i).Some?
    ensures Mutexes(InitNext(s, i).value)
  {
    assert s.init.Create? ==> s.loop.NotStarted?;
    hide InitProtocol;
  }

  lemma LoopKeepsProtocol(s: State, l: LoopStep)
    requires Protocol(s) && LoopNext(s, l).Some?
    ensures InitProtocol(LoopNext(s, l).value)
  {
    hide Mutexes;
  }

  lemma LoopKeepsMutexes(s: State, l: LoopStep)
    requires Protocol(s) && LoopNext(s, l).Some?
    ensures Mutexes(LoopNext(s, l).value)
  {
    hide InitProtocol;
  }

  lemma CtlKeepsFileSafe(s: State, c: CtlStep)
    requires Protocol(s) && FileSafe(s) && CtlNext(s, c).Some?
    ensures FileSafe(CtlNext(s, c).value)
  {
  }

  lemma InitKeepsFileSafe(s: State, i: InitStep)
    requires Protocol(s) && FileSafe(s) && InitNext(s, i).Some?
    ensures FileSafe(InitNext(s, i).value)
  {
    InitKeepsFileLife(s, i);
    hide Mutexes, FileLife;
  }

  lemma InitKeepsFileLife(s: State, i: InitStep)
    requires Protocol(s) && FileSafe(s) && InitNext(s, i).Some?
    ensures FileLife(InitNext(s, i).value)
  {
    hide Mutexes, Ended, DropsEndReading;
  }

  lemma LoopKeepsFileSafe(s: State, l: LoopStep)
    requires Protocol(s) && FileSafe(s) && LoopNext(s, l).Some?
    ensures FileSafe(LoopNext(s, l).value)
  {
  }

  lemma EnvKeepsControl(s: State, e: EnvStep)
    requires Protocol(s) && FileSafe(s) && EnvNext(s, e).Some?
    ensures Protocol(EnvNext(s, e).value) && FileSafe(EnvNext(s, e).value)
  {
    assert e.Others? && e.o.OtherCloses? ==> !IsMine(s.files.table, e.o.fd);
  }

  lemma ReadMovesBytes(st: Stream, n: nat)
    requires n <= |st.fifo|
    ensures Accounted(st.(fifo := st.fifo[n..]), st.fifo[..n]) == Accounted(st, [])
  {
    assert st.fifo == st.fifo[..n] + st.fifo[n..];
  }

  lemma DeliverMovesBytes(st: Stream, chunk: Bytes)
    requires st.dropped == []
    ensures Accounted(st.(delivered := st.delivered + [chunk]), []) == Accounted(st, chunk)
  {
    FlattenSnoc(st.delivered, chunk);
  }

  lemma DropMovesBytes(st: Stream, chunk: Bytes)
    ensures Accounted(st.(dropped := st.dropped + chunk), []) == Accounted(st, chunk)
  {
    var kept := Flatten(st.delivered);
    assert kept + (st.dropped + chunk) + [] == kept + st.dropped + chunk;
  }

  lemma ArriveAddsBytes(st: Stream, inHand: Bytes, bytes: Bytes)
    ensures Accounted(st.(fifo := st.fifo + bytes, arrived := st.arrived + bytes), inHand)
         == Accounted(st, inHand) + bytes
  {
  }

  lemma OthersLeaveBytes(s: State, step: Step)
    requires s.init.Create? ==> s.loop.NotStarted?
    requires Next(s, step).Some? && (step.Ctl? || step.Init?)
    ensures var t := Next(s, step).value; t.stream == s.stream && InHand(t.loop) == InHand(s.loop) && t.cfg == s.cfg
    ensures Next(s, step).value.loop.Deliver? ==> s.loop.Deliver?
  {
  }

  lemma LoopKeepsBytes(s: State, l: LoopStep)
    requires FileSafe(s) && BytesKept(s.stream, s.loop, s.cfg.bufSize)
    requires LoopNext(s, l).Some?
    ensures var t := LoopNext(s, l).value; BytesKept(t.stream, t.loop, t.cfg.bufSize)
  {
    hide Mutexes, FileLife, Ended, Accounted, Flatten;
    match l
    case ReadData(n) => ReadMovesBytes(s.stream, n);
    case DeliverChunk => DeliverMovesBytes(s.stream, s.loop.chunk);
    case StopOnLoop => DropMovesBytes(s.stream, s.loop.chunk);
    case _ =>
  }

  lemma NextKeepsInv(s: State, step: Step)
    requires Inv(s) && Next(s, step).Some?
    ensures Inv(Next(s, step).value)
  {
    assert s.init.Create? ==> s.loop.NotStarted?;
    hide Mutexes, InitProtocol, FileSafe, CtlNext, InitNext, LoopNext;
    match step
    case Ctl(c) => CtlKeepsMutexes(s, c); CtlKeepsProtocol(s, c); CtlKeepsFileSafe(s, c); OthersLeaveBytes(s, step);
    case Init(i) => InitKeepsMutexes(s, i); InitKeepsProtocol(s, i); InitKeepsFileSafe(s, i); OthersLeaveBytes(s, step);
    case Loop(l) => LoopKeepsMutexes(s, l); LoopKeepsProtocol(s, l); LoopKeepsFileSafe(s, l); LoopKeepsBytes(s, l);
    case Env(e) =>
      EnvKeepsControl(s, e);
      if e.Arrive? {
        ArriveAddsBytes(s.stream, InHand(s.loop), e.bytes);
      }
  }

  lemma {:induction false} RunKeepsInv(s: State, steps: seq<Step>)
    requires Inv(s) && Run(s, steps).Some?
    ensures Inv(Run(s, steps).value)
    decreases |steps|
  {
    hide Inv, Next;
    if steps != [] {
      NextKeepsInv(s, steps[0]);
      RunKeepsInv(Next(s, steps[0]).value, steps[1..]);
    }
  }

  /** `s` is reached by some interleaving from an initial state. */
  ghost predicate Reachable(s: State) {
    exists start: State, steps: seq<Step> :: Initial(start) && Run(start, steps) == Some(s)
  }

  lemma ReachableInv(s: State)
    requires Reachable(s)
    ensures Inv(s)
  {
    hide Inv, Initial;
    var start, steps :| Initial(start) && Run(start, steps) == Some(s);
    InitialInv(start);
    RunKeepsInv(start, steps);
  }

  // ---- Close is final ------------------------------------------------------------------

  /** Steps that select, read, or hand a chunk on. */
  predicate TouchesPipe(step: Step) {
    step.Loop? && (step.l.SelectReady? || step.l.ReadData? || step.l.ReadNothing? || step.l.DeliverChunk? ||
        step.l.StopOnLoop?)
  }

  /** How many steps the read loop can still take when inputFile is 0 for good. */
  function LoopStepsLeft(l: LoopPc): nat {
    match l
    case NotStarted => 0
    case Exited => 0
    case Test => 1
    case Unlock => 2
    case Enter => 3
    case LoopWait => 4
    case _ => 5
  }

  function LoopSteps(steps: seq<Step>): nat {
    if steps == [] then 0 else (if steps[0].Loop? then 1 else 0) + LoopSteps(steps[1..])
  }

  lemma EndedStep(s: State, step: Step)
    requires Ended(s) && (!s.cfg.hasPath ==> s.init.Unborn?) && s.closeReturned && Next(s, step).Some?
    ensures var t := Next(s, step).value;
            && t.closeReturned && !TouchesPipe(step)
            && t.stream.delivered == s.stream.delivered && t.stream.dropped == s.stream.dropped
            && t.files.opens == s.files.opens && t.files.closes == s.files.closes
            && LoopStepsLeft(t.loop) + (if step.Loop? then 1 else 0) <= LoopStepsLeft(s.loop)
  {
  }

  lemma {:induction false} EndedRun(s: State, after: seq<Step>)
    requires Inv(s) && s.closeReturned && Run(s, after).Some?
    ensures var t := Run(s, after).value;
            && t.closeReturned && Inv(t)
            && (forall k :: 0 <= k < |after| ==> !TouchesPipe(after[k]))
            && t.stream.delivered == s.stream.delivered && t.stream.dropped == s.stream.dropped
            && t.files.opens == s.files.opens && t.files.closes == s.files.closes
            && LoopStepsLeft(t.loop) + LoopSteps(after) <= LoopStepsLeft(s.loop)
    decreases |after|
  {
    assert Ended(s) && (!s.cfg.hasPath ==> s.init.Unborn?);
    hide Protocol, FileSafe, Ended, BytesKept, Next, LoopStepsLeft, TouchesPipe;
    if after != [] {
      NextKeepsInv(s, after[0]);
      EndedStep(s, after[0]);
      EndedRun(Next(s, after[0]).value, after[1..]);
    }
  }

  /**
   Once a closePipe has returned, then whatever runs afterwards - more openPipe calls
   included - inputFile is 0, nothing selects, reads, delivers or opens again, and the
   read loop takes at most four more steps, that is, at most one more pass.
   */
  lemma CloseIsFinal(s: State, after: seq<Step>)
    requires Reachable(s) && s.closeReturned && Run(s, after).Some?
    ensures Run(s, after).value.r.inputFile == 0
    ensures forall k :: 0 <= k < |after| ==> !TouchesPipe(after[k])
    ensures Run(s, after).value.stream.delivered == s.stream.delivered
    ensures Run(s, after).value.files.opens == s.files.opens
    ensures LoopSteps(after) <= 4
  {
    ReachableInv(s);
    EndedRun(s, after);
    hide Protocol, BytesKept, Next, TouchesPipe, FileLife, Phases;
  }

  /** After a close, a read loop that was started and has not exited can always step, or the controller can. */
  lemma LoopCanExit(s: State)
    requires Reachable(s) && s.closeReturned
    requires !s.loop.NotStarted? && !s.loop.Exited?
    ensures exists step :: Next(s, step).Some? && (step.Loop? || (step.Ctl? && s.readerMutex.ByController?))
  {
    ReachableInv(s);
    assert s.loop.Test? ==> Next(s, Loop(TestFile)).Some?;
    assert s.loop.LoopWait? && s.readerMutex.Free? ==> Next(s, Loop(LockLoop)).Some?;
    assert s.loop.Enter? ==> Next(s, Loop(EnterBody)).Some?;
    assert s.loop.Unlock? ==> Next(s, Loop(Release)).Some?;
    assert s.ctl.StopHeld? ==> Next(s, Ctl(StopBody)).Some?;
    assert s.ctl.StopClosed? ==> Next(s, Ctl(StopClear)).Some?;
  }

  // ---- Descriptors -----------------------------------------------------------------------

  /**
   In every reachable state: open succeeded at most once, close was called at most
   once for each number open returned, and every select, read and close was given a
   number that named this object's file at that moment.
   */
  lemma DescriptorUsedLinearly(s: State)
    requires Reachable(s)
    ensures s.files.closes <= s.files.opens <= 1 && !s.files.misused
    ensures s.loop.Select? || s.loop.Read? ==> IsMine(s.files.table, s.r.inputFile)
  {
    ReachableInv(s);
  }

  /** When a closePipe has returned nothing is left open, except descriptor 0 if open returned that. */
  lemma CloseLeavesOpenIffZero(s: State)
    requires Reachable(s) && s.closeReturned
    ensures (exists fd: nat :: IsMine(s.files.table, fd)) <==> s.files.opens == 1 && s.files.file == 0
    ensures s.files.opens == 1 && s.files.file != 0 ==> s.files.closes == 1
  {
    ReachableInv(s);
    assert s.files.opens == 1 && s.files.file == 0 ==> IsMine(s.files.table, 0);
  }

  /** The init thread's open returns 0, which startReading takes for a failure; nobody else moves. */
  lemma OpensZero(start: State) returns (steps: seq<Step>, s: State)
    requires Initial(start) && start.cfg.hasPath && 0 !in start.files.table
    ensures Run(start, steps) == Some(s)
    ensures s == start.(r := Fields(Failed, 0, NoThread, true), flags := Flags(true, true, false, true, false, 1),
                        init := Finished,
                        files := start.files.(table := Descriptors.Open(start.files.table, 0, Mine),
                                              file := 0, opens := 1))
  {
    steps, s := [], start;
    assert Run(start, steps) == Some(start);
    hide Run;
    steps, s := Do(start, steps, s, Ctl(OpenPipe(true)));
    steps, s := Do(start, steps, s, Ctl(OpenLock));
    steps, s := Do(start, steps, s, Ctl(OpenBody(true)));
    steps, s := Do(start, steps, s, Init(BeginLock));
    steps, s := Do(start, steps, s, Init(BeginBody));
    steps, s := Do(start, steps, s, Init(Open(OpenOk(0))));
    steps, s := Do(start, steps, s, Init(AssignFile));
    steps, s := Do(start, steps, s, Init(CheckLock));
    steps, s := Do(start, steps, s, Init(CheckBody));
    steps, s := Do(start, steps, s, Init(PublishLock));
    steps, s := Do(start, steps, s, Init(PublishBody));
    steps, s := Do(start, steps, s, Init(NotifyAll));
  }

  /** Then a closePipe returns and has left it open. */
  lemma ZeroStaysOpen(start: State) returns (steps: seq<Step>, s: State)
    requires Initial(start) && start.cfg.hasPath && 0 !in start.files.table
    ensures Run(start, steps) == Some(s) && s.closeReturned && IsMine(s.files.table, 0)
  {
    steps, s := OpensZero(start);
    hide Run;
    steps, s := Do(start, steps, s, Ctl(ClosePipe));
    steps, s := Do(start, steps, s, Ctl(CancelLock));
    steps, s := Do(start, steps, s, Ctl(CancelBody));
    steps, s := Do(start, steps, s, Ctl(StopLock));
    steps, s := Do(start, steps, s, Ctl(StopBody));
  }

  // ---- No deadlock on close ----------------------------------------------------------------

  predicate Closing(c: CtlPc) {
    c.CancelWait? || c.CancelHeld? || c.Joining? || c.StopWait? || c.StopHeld? || c.StopClosed?
  }

  /** How far the init thread is from its end. */
  function InitRank(i: InitPc): nat {
    match i
    case Unborn => 0
    case BeginWait => 12
    case BeginHeld => 11
    case InOpen => 10
    case FileReturned(_) => 9
    case CheckWait => 8
    case CheckHeld => 7
    case Create => 6
    case UndoWait => 5
    case UndoHeld => 4
    case PublishWait(_) => 3
    case PublishHeld(_) => 2
    case Notify => 1
    case Finished => 0
    case Cancelled => 0
  }

  /** How far the read loop is from giving readerMutex back. */
  function HoldRank(l: LoopPc): nat {
    match l
    case Enter => 5
    case Select => 4
    case Read => 3
    case Deliver(_) => 2
    case Unlock => 1
    case _ => 0
  }

  function CloseRank(s: State): nat {
    InitRank(s.init) +
    match s.ctl
    case CancelWait => 11
    case CancelHeld => 10
    case Joining => 9
    case StopWait => 3 + HoldRank(s.loop)
    case StopHeld => 2
    case StopClosed => 1
    case _ => 0
  }

  /** The next step of an init thread that nobody blocks and that was asked to cancel. */
  function InitMove(i: InitPc): InitStep {
    match i
    case BeginWait => BeginLock
    case BeginHeld => BeginBody
    case InOpen => Open(OpenCancelled)
    case FileReturned(_) => AssignFile
    case CheckWait => CheckLock
    case CheckHeld => CheckBody
    case Create => CreateLoop(false)
    case UndoWait => UndoLock
    case UndoHeld => UndoBody
    case PublishWait(_) => PublishLock
    case PublishHeld(_) => PublishBody
    case _ => NotifyAll
  }

  /** The next step of a read loop that holds readerMutex; select, read and the listener return. */
  function LoopMove(l: LoopPc, listener: bool): LoopStep {
    match l
    case Enter => EnterBody
    case Select => SelectReady(false)
    case Read => ReadNothing(true)
    case Deliver(_) => if listener then DeliverChunk else StopOnLoop
    case _ => Release
  }

  /** A step of the thread that closePipe is waiting for, or of closePipe itself. */
  function Helpful(s: State): Step {
    match s.ctl
    case CancelWait => if s.initMutex.Free? then Ctl(CancelLock) else Init(InitMove(s.init))
    case CancelHeld => Ctl(CancelBody)
    case Joining => if s.init.Finished? || s.init.Cancelled? then Ctl(Join) else Init(InitMove(s.init))
    case StopWait => if s.readerMutex.Free? then Ctl(StopLock) else Loop(LoopMove(s.loop, s.r.listener))
    case StopHeld => Ctl(StopBody)
    case _ => Ctl(StopClear)
  }

  /** Joining waits only for a thread that is not blocked: it can move, and comes nearer to its end. */
  lemma JoinedThreadMoves(s: State)
    requires Protocol(s) && s.ctl.Joining? && !s.init.Finished? && !s.init.Cancelled?
    ensures var next := InitNext(s, InitMove(s.init));
            next.Some? && InitRank(next.value.init) < InitRank(s.init) && next.value.ctl.Joining?
  {
  }

  /** The loop gives readerMutex back after finitely many steps, none of which can block. */
  lemma HolderMoves(s: State)
    requires Protocol(s) && LoopHolds(s.loop)
    ensures var next := LoopNext(s, LoopMove(s.loop, s.r.listener));
            && next.Some? && HoldRank(next.value.loop) < HoldRank(s.loop)
            && next.value.ctl == s.ctl && next.value.init == s.init
  {
  }

  /** Somebody can always move, and moving him brings closePipe nearer to its return. */
  lemma HelpfulStepHelps(s: State)
    requires Protocol(s) && Closing(s.ctl)
    ensures Next(s, Helpful(s)).Some?
    ensures var t := Next(s, Helpful(s)).value;
            if Closing(t.ctl) then CloseRank(t) < CloseRank(s) else t.ctl.Idle? && t.closeReturned
  {
    if s.ctl.Joining? && !s.init.Finished? && !s.init.Cancelled? {
      JoinedThreadMoves(s);
      hide Protocol, InitNext, InitRank, InitMove;
    } else if s.ctl.StopWait? && !s.readerMutex.Free? {
      HolderMoves(s);
      hide LoopNext, HoldRank, LoopMove;
    }
  }

  /**
   No deadlock: from every reachable state inside a closePipe there is a continuation
   of at most 23 steps, none of them by the environment, in which that closePipe returns.
   */
  lemma {:induction false} CloseCanReturn(s: State) returns (steps: seq<Step>)
    requires Reachable(s) && Closing(s.ctl)
    ensures |steps| <= 23
    ensures forall k :: 0 <= k < |steps| ==> !steps[k].Env?
    ensures Run(s, steps).Some? && Run(s, steps).value.ctl.Idle? && Run(s, steps).value.closeReturned
  {
    ReachableInv(s);
    steps := CloseByHelping(s);
  }

  lemma {:induction false} CloseByHelping(s: State) returns (steps: seq<Step>)
    requires Inv(s) && Closing(s.ctl)
    ensures |steps| <= CloseRank(s)
    ensures forall k :: 0 <= k < |steps| ==> !steps[k].Env?
    ensures Run(s, steps).Some? && Run(s, steps).value.ctl.Idle? && Run(s, steps).value.closeReturned
    decreases CloseRank(s)
  {
    var step := Helpful(s);
    HelpfulStepHelps(s);
    NextKeepsInv(s, step);
    var t := Next(s, step).value;
    steps := [step];
    hide Protocol, FileSafe, BytesKept, Next, CloseRank;
    if Closing(t.ctl) {
      var rest := CloseByHelping(t);
      steps := steps + rest;
    }
  }

  /** Once closePipe has asked for cancellation, the init thread is never blocked and needs at most 12 steps. */
  lemma CancelledInitEnds(s: State)
    requires Reachable(s) && s.ctl.Joining? && !s.init.Finished? && !s.init.Cancelled?
    ensures Next(s, Init(InitMove(s.init))).Some?
    ensures forall i: InitStep :: InitNext(s, i).Some? ==> InitRank(InitNext(s, i).value.init) < InitRank(s.init) <= 12
  {
    ReachableInv(s);
    HelpfulStepHelps(s);
  }

  // ---- Bytes ---------------------------------------------------------------------------------

  /**
   In every reachable state the chunks given to the listener, then what was read
   without a listener, then the chunk being handed over, then the FIFO, are exactly
   the bytes that ever entered the FIFO, in order; chunks have 1..bufSize bytes.
   */
  lemma NoByteLostOrReordered(s: State)
    requires Reachable(s)
    ensures Flatten(s.stream.delivered) + s.stream.dropped + InHand(s.loop) + s.stream.fifo == s.stream.arrived
    ensures forall k :: 0 <= k < |s.stream.delivered| ==> 1 <= |s.stream.delivered[k]| <= s.cfg.bufSize
  {
    ReachableInv(s);
  }

  // ---- The reader reads ----------------------------------------------------------------------

  /**
   When select reports data, the loop reads and delivers it: for every number of bytes that read
   may return, these steps and no others of the loop are possible in turn, and they move exactly
   those bytes from the FIFO to the listener.
   */
  lemma ReadyIsDelivered(s: State, n: nat)
    requires s.loop.Select? && s.r.listener && 1 <= n <= s.cfg.bufSize && n <= |s.stream.fifo|
    ensures var ready := LoopNext(s, SelectReady(true));
            && ready.Some?
            && (forall l :: LoopNext(ready.value, l).Some? ==> l.ReadData? || l == ReadNothing(true))
            && var read := LoopNext(ready.value, ReadData(n));
            && read.Some?
            && (forall l :: LoopNext(read.value, l).Some? ==> l.DeliverChunk?)
            && var delivered := LoopNext(read.value, DeliverChunk);
            && delivered.Some?
            && (forall l :: LoopNext(delivered.value, l).Some? ==> l.Release?)
            && var done := LoopNext(delivered.value, Release);
            && done.Some? && done.value.loop.Test? && done.value.readerMutex.Free?
            && done.value.r.inputFile == s.r.inputFile
            && done.value.stream == s.stream.(fifo := s.stream.fifo[n..],
                                              delivered := s.stream.delivered + [s.stream.fifo[..n]])
  {
  }

  /** When select reports nothing, the loop only gives the mutex back, and keeps the file and the bytes. */
  lemma NotReadyIsLeft(s: State)
    requires s.loop.Select?
    ensures var left := LoopNext(s, SelectReady(false));
            && left.Some? && left.value.stream == s.stream && left.value.r == s.r
            && (forall l :: LoopNext(left.value, l).Some? ==> l.Release?)
            && var done := LoopNext(left.value, Release);
            && done.Some? && done.value.loop.Test? && done.value.readerMutex.Free?
            && done.value.stream == s.stream && done.value.r == s.r
  {
  }

  /** While the file is open and the mutex free, the loop comes to select, by the only steps it can take. */
  lemma LoopComesToSelect(s: State)
    requires s.loop.Test? && s.r.inputFile != 0 && s.readerMutex.Free?
    ensures var tested := LoopNext(s, TestFile);
            && tested.Some?
            && (forall l :: LoopNext(s, l).Some? ==> l.TestFile?)
            && (forall l :: LoopNext(tested.value, l).Some? ==> l.LockLoop?)
            && var locked := LoopNext(tested.value, LockLoop);
            && locked.Some?
            && (forall l :: LoopNext(locked.value, l).Some? ==> l.EnterBody?)
            && var entered := LoopNext(locked.value, EnterBody);
            && entered.Some? && entered.value.loop.Select? && entered.value.r.inputFile == s.r.inputFile
            && entered.value.stream == s.stream
  {
  }

  /**
   A file that open has returned is read: unless it is number 0, the init thread's steps are
   these, and after them there is a loop that is about to test it.  If the loop's thread cannot be
   created the file is closed.
   */
  lemma OpenedFileIsRead(s: State)
    requires s.init.FileReturned? && s.init.fd != 0 && s.readerMutex.Free?
    ensures var stored := InitNext(s, AssignFile);
            && stored.Some?
            && (forall i :: InitNext(s, i).Some? ==> i.AssignFile?)
            && (forall i :: InitNext(stored.value, i).Some? ==> i.CheckLock?)
            && var locked := InitNext(stored.value, CheckLock);
            && locked.Some?
            && (forall i :: InitNext(locked.value, i).Some? ==> i.CheckBody?)
            && var checked := InitNext(locked.value, CheckBody);
            && checked.Some? && checked.value.r.phase.Opened? && checked.value.readerMutex.Free?
            && (forall i :: InitNext(checked.value, i).Some? ==> i.CreateLoop?)
            && var running, failed := InitNext(checked.value, CreateLoop(true)),
                InitNext(checked.value, CreateLoop(false));
            && running.Some? && running.value.loop.Test? && running.value.r.inputFile == s.init.fd
            && running.value.r.threadId.LoopThread? && running.value.init == PublishWait(true)
            && failed.Some? && failed.value.init.UndoWait? && failed.value.loop == s.loop
  {
  }

  /** The first openPipe starts the init thread, with the listener it was given; the thread comes to open. */
  lemma OpenPipeStartsInit(s: State, hasListener: bool)
    requires s.ctl.Idle? && s.cfg.hasPath && !s.flags.started && s.initMutex.Free?
    requires s.r.phase.Initializing? && s.readerMutex.Free?
    ensures var called := CtlNext(s, OpenPipe(hasListener));
            && called.Some? && called.value.r.listener == hasListener
            && var locked := CtlNext(called.value, OpenLock);
            && locked.Some?
            && var started := CtlNext(locked.value, OpenBody(true));
            && started.Some? && started.value.ctl.Idle? && started.value.initMutex.Free?
            && started.value.flags.hasThread && started.value.init.BeginWait? && started.value.r.listener == hasListener
            && var begun := InitNext(started.value, BeginLock);
            && begun.Some?
            && var opening := InitNext(begun.value, BeginBody);
            && opening.Some? && opening.value.init.InOpen? && opening.value.readerMutex.Free?
  {
  }

  /**
   startReading reports failure only if reading was stopped before it began, open failed, or no
   thread could be made.
   */
  lemma InitFailsOnlyIf(s: State, i: InitStep)
    requires InitNext(s, i).Some? && InitNext(s, i).value.init == PublishWait(false)
    ensures || (i.BeginBody? && (s.r.phase.Closed? || s.r.phase.Failed?))
            || (i.CheckBody? && s.r.inputFile == 0)
            || i.UndoBody?
  {
  }

  /** Only a close, an end of file or error, a missing listener, or a failed thread creation take the file away. */
  lemma FileLostOnlyIf(s: State, step: Step)
    requires Inv(s) && Next(s, step).Some? && s.r.inputFile != 0 && Next(s, step).value.r.inputFile == 0
    ensures || step == Ctl(StopClear) || step == Init(UndoBody)
            || (step.Loop? && step.l.ReadNothing? && (step.l.isError || s.stream.fifo == [] || s.cfg.bufSize == 0))
            || (step == Loop(StopOnLoop) && !s.r.listener)
  {
    assert s.init.FileReturned? ==> s.r.inputFile == 0;
    assert !s.loop.Relock?;
    match step
    case Ctl(_) => hide Inv, InitNext, LoopNext, EnvNext;
    case Init(_) => hide Inv, CtlNext, LoopNext, EnvNext;
    case Loop(_) => hide Inv, CtlNext, InitNext, EnvNext;
    case Env(_) => hide Inv, CtlNext, InitNext, LoopNext;
  }

  // ---- The thread protocol -----------------------------------------------------------------------

  /**
   At most one init thread and one read loop are ever created; initialisation counts as
   successful exactly when it finished and a read loop exists; and when a chunk arrives
   without a listener the loop thread closes the file itself, in the phase the source
   asserts, without waiting for the mutex it already holds.
   */
  lemma ThreadsBehave(s: State)
    requires Reachable(s)
    ensures s.flags.threadsCreated <= 1
    ensures s.flags.succeeded <==> s.flags.finished && !s.loop.NotStarted?
    ensures s.loop.Deliver? ==> s.r.phase.Processing? && s.r.threadId.LoopThread?
    ensures !s.loop.Relock?
  {
    ReachableInv(s);
  }
}
