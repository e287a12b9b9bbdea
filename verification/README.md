# DaemonFramework: a verified model

DaemonFramework lets an application start a background daemon, talk to it through named pipes and
stop it again. This project models the parts whose guarantees span functions, threads and
processes, over a small abstract kernel: descriptors, FIFO bytes, a directory tree, a process
table, flock owners, children and a clock. It proves what those parts keep.

| modules | what they model |
|---|---|
| `Descriptors`, `ThreadedInit`, `PipeReader`, `PipeWriter`, `PipeChannel` | the asynchronous pipes: an init thread that opens a FIFO, a read loop, any number of senders, and a controller that opens and closes, as transition systems over every interleaving |
| `Text`, `FileSystem`, `FileUtils`, `PipeFile` | path strings, `createDir` and `createPipe` on a directory tree of component lists |
| `Decimal`, `ProcessData`, `ProcessTracking` | reading `/proc/<pid>/stat`, and following a process over time |
| `LockFile`, `DaemonLoop`, `SingleInstance`, `LoopRefinement` | opening and taking the lock file, `runLoop`, any number of daemon processes that compete for the lock, and how the two views of `runLoop` agree |
| `DaemonControl` | the daemon as a child process: fork, signals, waitpid |

The concurrent parts are transition systems on values: a program counter for each thread, one step
for each lock, unlock, system call or unlocked access, and an invariant kept by every step. A run is
any sequence of enabled steps, so each theorem about a reachable state or a run is about every
interleaving. The sequential parts keep the form of the source: classes with fields, loops and early
returns, proved against functions on values.

Where the code does something other than its documentation, or than one might expect, the model
follows the code:

- A `closePipe` of the Reader is final, whatever is called afterwards. A `closePipe` of the Writer is
  final only if the init thread had been started (`PipeWriter.CloseBeforeStartIsNotFinal`).
- The Writer retries a `close` that was interrupted. Over all runs that is safe exactly on systems
  where EINTR leaves the descriptor open (`PipeWriter.RetryIsSafeIff`); elsewhere the retry can close
  another file of the process (`PipeWriter.RetryClosesAnother`).
- A `sendData` that ends after the close may report success for a message that went elsewhere
  (`PipeWriter.LateWriteIsLost`). What was reported is what was sent exactly if no write succeeded after
  the close (`PipeWriter.ReportedIsSentIff`).
- `sendData` waits while initialisation runs, but a spurious wake-up makes it give up at once
  (`PipeWriter.SpuriousWakeupFailsSend`).
- A descriptor 0 returned by `open` is never closed (`PipeReader.ZeroStaysOpen`,
  `PipeWriter.ZeroStaysOpen`).
- `createDir` on a missing path that ends in two slashes makes the directory and reports failure
  (`FileUtils.FailsThoughMadeIff`, `FileUtils.SlashSlashFails`). The same happens to a missing directory
  in the middle of a path with three slashes after it; what lies below it is then not made
  (`FileUtils.ChainSucceedsIff`, `FileUtils.ThreeSlashesFail`).
- `createPipe` repeated succeeds again exactly if the umask clears no requested bit
  (`PipeFile.CreatePipeTwice`, `PipeFile.SecondCreateFails`).
- `waitForInit` is documented to return false before the start, and else whether initialisation
  succeeded. It waits, and returns false only if it times out; it can return true although nothing was
  started (`PipeWriter.WaitReturnsTrueUnstarted`). A client that began to wait before a start that
  cannot create the thread is never woken (`PipeWriter.FailedStartForgetsWaiter`).
- The joined stat items are the printed fields exactly if only the last word of the command name ends
  in a parenthesis (`ProcessData.RoundTripIff`); a command called `a) b` is misread
  (`ProcessTracking.IllNamedMisread`).
- `update` is documented to notice a pid that a new process uses. It notices exactly if the executable
  path differs; start times are not compared (`ProcessTracking.ReuseNoticedIff`,
  `ProcessTracking.ReuseGoesUnnoticed`).
- Some exits of `runLoop` leave `loopRunning` set; `DaemonLoop.DaemonLoop.RunLoop` says which. A second
  run in a process that kept its lock never gets past the lock (`SingleInstance.NoSecondRun`), and
  after it the destructor no longer releases the lock (`SingleInstance.ShutOutRunKeepsLock`).
- After a failed fork, `daemonProcess` is -1, and a `stopDaemon` that follows directly signals every
  process (`DaemonControl.FailedFork`, `DaemonControl.AnyCalls`). A daemon that is killed reads as exit
  code 0, or, while `waitToExit` blocks, leaves the code as it was.

## Model

| member | source | states |
|---|---|---|
| PipeReader.NextKeepsInv | Source/Shared/InputReader.cpp:29-182 | every step of controller, init thread, read loop and environment keeps the invariant: who holds which mutex, what the flags say, whether `inputFile` names an open descriptor, where the bytes are |
| PipeReader.RunKeepsInv | Source/Shared/InputReader.cpp:29-182 | every interleaving keeps it |
| PipeReader.CloseIsFinal | Source/Shared/Pipe/Pipe_Reader.cpp:60-67 | once a `closePipe` has returned, in every continuation `inputFile` is 0, no step selects, reads, opens or calls the listener, even after more `openPipe` calls, and the read loop takes at most four more steps, that is, at most one further pass |
| PipeReader.EndedRun | Source/Shared/InputReader.cpp:127-170 | the induction behind it: nothing delivered, opened or closed any more, and each loop step uses up one of the steps left |
| PipeReader.LoopCanExit | Source/Shared/InputReader.cpp:127-170 | the loop left behind by a close is never stuck: it can step, or the controller holding the mutex can |
| PipeReader.DescriptorUsedLinearly | Source/Shared/InputReader.cpp:45-73 | open succeeds at most once, its descriptor is closed at most once, and every select, read and close names this object's file at that moment, despite the unlocked loop test and although numbers are reused by other code |
| PipeReader.CloseLeavesOpenIffZero | Source/Shared/InputReader.cpp:174-181 | when a close has returned the descriptor has been closed exactly once; it is still open if and only if it is number 0 |
| PipeReader.ZeroStaysOpen | Source/Shared/InputReader.cpp:45-55 | from every initial state in which number 0 is free there is a run in which open returns it and a returned close leaves it open |
| PipeReader.HelpfulStepHelps | Source/Shared/ThreadedInit.cpp:86-135 | whenever a `closePipe` is under way the thread it waits for, or the closing thread, can move, and that brings the close nearer to its return |
| PipeReader.CloseCanReturn | Source/Shared/Pipe/Pipe_Reader.cpp:60-67 | no deadlock: from every reachable state inside `closePipe` at most 23 steps of the participating threads make it return |
| PipeReader.CancelledInitEnds | Source/Shared/ThreadedInit.cpp:96-114 | a join waits only for a thread that is not blocked: each of its steps brings it nearer to its end, at most 12 remain |
| PipeReader.NoByteLostOrReordered | Source/Shared/InputReader.cpp:141-166 | delivered chunks, dropped bytes, the chunk in hand and the FIFO are in order exactly the bytes that entered; every delivered chunk has 1 to `bufSize` bytes |
| PipeReader.OpenPipeStartsInit | Source/Shared/ThreadedInit.cpp:66-82 | the first `openPipe` keeps the listener it was given and starts an init thread, which comes to open |
| PipeReader.OpenedFileIsRead | Source/Shared/InputReader.cpp:45-75 | in every state in which open has returned a number but 0, the init thread stores it and creates a read loop that is about to test it; these are its only steps |
| PipeReader.InitFailsOnlyIf | Source/Shared/InputReader.cpp:29-76 | `startReading` fails only if reading was stopped before, `inputFile` is 0 after open, or the thread could not be created |
| PipeReader.LoopComesToSelect | Source/Shared/InputReader.cpp:129-146 | in every state with an open file and a free mutex the loop comes to select, by the only steps it can take |
| PipeReader.ReadyIsDelivered | Source/Shared/InputReader.cpp:145-166 | in every state at select with data, after select returned 1 the loop reads and delivers, for every amount that read may return, exactly those bytes; and it can do nothing else but meet a read error |
| PipeReader.NotReadyIsLeft | Source/Shared/InputReader.cpp:145-169 | otherwise it only gives the mutex back, and file and bytes stay as they are |
| PipeReader.FileLostOnlyIf | Source/Shared/InputReader.cpp:64-109 | the file is given up only by a close, a read error or end of file, a missing listener, or a failed thread creation |
| PipeReader.ThreadsBehave | Source/Shared/ThreadedInit.cpp:66-82 | at most one init thread is created; initialisation succeeded exactly if it finished and a read loop exists |
| PipeReader.HolderMoves | Source/Shared/InputReader.cpp:131-169 | the loop always gives `readerMutex` back: its own `stopReading` does not lock again |
| PipeWriter.NextKeepsInv | Source/Shared/Pipe/Pipe_Writer.cpp:39-136 | every step of controller, init thread, clients and environment keeps the two-lock invariant |
| PipeWriter.RunKeepsInv | Source/Shared/Pipe/Pipe_Writer.cpp:39-136 | every interleaving, with any number of clients, keeps it, whether or not an interrupted close releases the descriptor |
| PipeWriter.ClientMovesAlone | Source/Shared/Pipe/Pipe_Writer.cpp:39-78 | a client step changes only that client, the mutex it takes or gives back, and what was sent |
| PipeWriter.SuccessNamesTheFile | Source/Shared/Pipe/Pipe_Writer.cpp:51-77 | across the two locks: until close closes it, `initSucceeded` implies that `pipeFile` is the open descriptor of this writer's init thread; whoever is about to write saw success; and until then all that was reported as sent went into the pipe |
| PipeWriter.WriteReachesThePipeIff | Source/Shared/Pipe/Pipe_Writer.cpp:68-77 | a write goes to the pipe if and only if the pipe was not closed |
| PipeWriter.NoSendNoWrite | Source/Shared/Pipe/Pipe_Writer.cpp:39-78 | if no send is under way and none begins, nothing is written |
| PipeWriter.ReportedIsSentIff | Source/Shared/Pipe/Pipe_Writer.cpp:62-77 | over every run, the messages reported as sent exceed those that went into the pipe by the writes that succeeded after the close; the two are the same if and only if there was no such write |
| PipeWriter.GivesUpOnlyIf | Source/Shared/Pipe/Pipe_Writer.cpp:39-78 | for every step of every thread: a `sendData` ends only with its write, without success when it asks for that, or not finished at its second look |
| PipeWriter.SecondLookAfterTimeout | Source/Shared/Pipe/Pipe_Writer.cpp:51-61 | the second look comes only after a wait that timed out |
| PipeWriter.TimedOutSendLooksAgain | Source/Shared/Pipe/Pipe_Writer.cpp:53-62 | after a timeout it does look again, and goes on if initialisation has finished meanwhile |
| PipeWriter.SendIsReported | Source/Shared/Pipe/Pipe_Writer.cpp:39-78 | over every run: a send whose wait neither times out nor is woken spuriously, whose write does not fail, and whose initialisation does not fail, is still on its way or has its message among those reported |
| PipeWriter.SendCanFinish | Source/Shared/Pipe/Pipe_Writer.cpp:39-78 | from every reachable state after success and before any close, with the mutexes free, a client can send by itself: its message goes into the pipe and is reported |
| PipeWriter.SpuriousWakeupFailsSend | Source/Shared/Pipe/Pipe_Writer.cpp:51-67 | from every initial state with a client there is a run in which a send gives up without a timeout, before initialisation has finished |
| PipeWriter.OpenPipeStartsInit | Source/Shared/ThreadedInit.cpp:66-82 | the first `openPipe` starts an init thread, which comes to open |
| PipeWriter.InitReportsOpen | Source/Shared/Pipe/Pipe_Writer.cpp:118-135 | success is published exactly if open succeeded, with its descriptor in `pipeFile`; else `pipeFile` is 0 |
| PipeWriter.SendsBeforeCloseArrive | Source/Shared/Pipe/Pipe_Writer.cpp:39-111 | with no send in progress at the close and none begun later, the two are the same |
| PipeWriter.LateWriteIsLost | Source/Shared/Pipe/Pipe_Writer.cpp:62-77 | from every initial state with a client there is a run in which a send after the close reports success and nothing went into the pipe |
| PipeWriter.NoLostWakeup | Source/Shared/ThreadedInit.cpp:44-82 | a client that still waits once initialisation has finished is about to be woken, or it began to wait before a start that could not create the thread; one that began to wait after the start has a thread that has not run `notify_all` yet; `notify_all` empties the wait set; one init thread at most |
| PipeWriter.FailedStartForgetsWaiter | Source/Shared/ThreadedInit.cpp:72-80 | from every initial state with a client a run leads to the exception: a client that waits, and no thread that could wake it |
| PipeWriter.ForgottenForEver | Source/Shared/ThreadedInit.cpp:51-59 | whatever runs, only a spurious wake-up or its own timeout ends such a wait |
| PipeWriter.WaitReturnsTrueUnstarted | Source/Shared/ThreadedInit.cpp:44-61 | from every initial state with a client there is a run in which `waitForInit` returns true and nothing was started |
| PipeWriter.LateWaiterSawStart | Source/Shared/ThreadedInit.cpp:44-61 | a client that enters the wait set after the start finds a thread that is still to publish |
| PipeWriter.DescriptorUsedLinearly | Source/Shared/Pipe/Pipe_Writer.cpp:89-136 | open succeeds at most once; the writer closes a number that is not its file if and only if it closes again after a close that released it; where an interrupted close leaves the descriptor open, close happens at most once and no number is misused |
| PipeWriter.CloseLeavesOpenIffZero | Source/Shared/Pipe/Pipe_Writer.cpp:95-108 | after a close that followed a start the pipe is open if and only if it is descriptor 0 |
| PipeWriter.ZeroStaysOpen | Source/Shared/Pipe/Pipe_Writer.cpp:95-108 | from every initial state in which number 0 is free there is a run in which a returned close leaves it open |
| PipeWriter.CloseAfterStartIsFinal | Source/Shared/Pipe/Pipe_Writer.cpp:89-111 | after such a close `pipeFile` stays 0, nothing is opened, and once the pipe was closed nothing more is sent into it |
| PipeWriter.CloseBeforeStartIsNotFinal | Source/Shared/Pipe/Pipe_Writer.cpp:82-111 | a close before the start does not last: an `openPipe` afterwards opens the pipe, whatever the state |
| PipeWriter.HelpfulStepHelps | Source/Shared/Pipe/Pipe_Writer.cpp:89-108 | whenever a `closePipe` is under way some thread can move and brings it nearer to its return |
| PipeWriter.CloseCanReturn | Source/Shared/Pipe/Pipe_Writer.cpp:89-108 | no deadlock: at most 13 steps of the participating threads make a `closePipe` return |
| PipeWriter.RetryIsSafeIff | Source/Shared/Pipe/Pipe_Writer.cpp:98-106 | from any initial state: no run makes the writer use a number that is not its own, if and only if an interrupted close leaves the descriptor open |
| PipeWriter.RetryClosesAnother | Source/Shared/Pipe/Pipe_Writer.cpp:98-106 | otherwise there is a run from every initial state in which the retry closes a descriptor that belongs to other code |
| PipeChannel.BytesConserved | Source/Shared/Pipe/Pipe_Writer.cpp:39-78 | end to end, for every run of one writer with any number of senders and one reader: delivered, dropped, in hand and still in the FIFO are the messages that went into the pipe, in lock order; these are all messages reported as sent if and only if no write succeeded after the close |
| PipeChannel.ReportedArrives | Source/Shared/Pipe/Pipe_Writer.cpp:39-111 | with no send in progress at the close and none begun later, every message for which `sendData` reported success is at the reader's end, whole and in order |
| PipeChannel.ListenerGetsPrefix | Source/Shared/Pipe/Pipe_Reader.cpp:104-122 | if every `openPipe` names a listener, what the listener got is a prefix of what was sent |
| Descriptors.Close | Source/Shared/InputReader.cpp:178-178 | closing takes that number away from this object's, and no other of them |
| FileSystem.LookupFinds | Source/Shared/File/File_Utils.cpp:39-60 | the component walk behind stat finds a file exactly if the tree has it |
| FileSystem.Kernel.Mkdir | Source/Shared/File/File_Utils.cpp:127-134 | mkdir succeeds exactly on a free name in a permitted directory, and adds that directory, less the umask, and nothing else |
| FileSystem.Kernel.OpenCreate | Source/Daemon/DaemonLoop.cpp:141-142 | the lock's open creates at most that one file, and opens no directory |
| FileUtils.FindLastOf | Source/Shared/File/File_Utils.cpp:18-18 | `find_last_of`: the last occurrence at or before the position, or npos if there is none |
| FileUtils.BeforeLast | Source/Shared/File/File_Utils.cpp:17-18 | the size_t subtraction wraps around to npos for a path of length 1 |
| FileUtils.ParentIsShorter | Source/Shared/File/File_Utils.cpp:11-28 | the parent string of every nonempty path is strictly shorter, which ends the recursion |
| FileUtils.ParentComponents | Source/Shared/File/File_Utils.cpp:11-28 | the string computation drops exactly the last path component, or none after a doubled slash, and keeps a path absolute or relative; it is empty only for a relative path of one component |
| FileUtils.MissingPath | Source/Shared/File/File_Utils.cpp:112-118 | a path that is missing has components, and its parent string names its parent directory, or the path itself after a doubled slash |
| FileUtils.ParentGaps | Source/Shared/File/File_Utils.cpp:11-28 | the parent string has the same places where slashes pile up as the path, but for the one at the end |
| FileUtils.SimpleHasNoGaps | Source/Shared/File/File_Utils.cpp:11-28 | a path without doubled slashes has none |
| FileUtils.ChainExtended | Source/Shared/File/File_Utils.cpp:116-134 | one level of the recursion on strings is one level of the component-list model |
| FileUtils.CreateDir | Source/Shared/File/File_Utils.cpp:100-135 | for every string: terminates; only adds directories that are prefixes of the path; ancestors get S_IRWXU and the leaf the requested mode, less the umask; returns true if and only if the path is a directory afterwards, or, after a doubled slash, was one before; that is, if and only if everything below some existing directory on the way is free, permitted and without a gap in the slashes; tree and result are exactly those of the component-list model |
| FileUtils.ChainSucceedsIff | Source/Shared/File/File_Utils.cpp:100-135 | that condition, without following the recursion |
| FileUtils.FailsThoughMadeIff | Source/Shared/File/File_Utils.cpp:116-134 | it reports failure for a path that is a directory afterwards if and only if the path was missing, ends in two slashes, and its parent exists or can be made and permits it |
| FileUtils.SlashSlashFails | Source/Shared/File/File_Utils.cpp:116-134 | on an empty tree the path `/a//` is made and reported as a failure |
| FileUtils.ThreeSlashesFail | Source/Shared/File/File_Utils.cpp:116-134 | on an empty tree the path `/a///b` leaves `/a` made, nothing below it, and a failure |
| FileUtils.AddedInOneRun | Source/Shared/File/File_Utils.cpp:116-134 | what was added is one contiguous chain of ancestors |
| FileUtils.SecondCreateIsIdle | Source/Shared/File/File_Utils.cpp:107-111 | on a path that is a directory already it succeeds and changes nothing |
| PipeFile.CreatePipe | Source/Shared/Pipe/Pipe.cpp:17-86 | for every string: an existing file is left alone, and accepted exactly if it is a FIFO of that mode; otherwise success means a FIFO of that mode, less the umask, and all changes are at the path and its ancestors; tree and result are those of the component-list model applied to the directories above the path; after a doubled slash it fails, having made the path a directory if it could |
| PipeFile.CreatePipeTwice | Source/Shared/Pipe/Pipe.cpp:17-86 | after a success the second call changes nothing, and succeeds if the first found the FIFO, or else if and only if the umask clears no requested bit |
| PipeFile.SecondCreateFails | Source/Shared/Pipe/Pipe.cpp:44-63 | with mode 0666 and umask 022 on an empty tree the first call succeeds and the second fails |
| Text.PiecesSplit | Source/Daemon/Process/Process_Data.cpp:167-167 | cutting at a separator: the words of the whole are the words of both parts |
| Decimal.LeadingOfPrint | Source/Daemon/Process/Process_Data.cpp:192-194 | reading a printed number gives that number |
| Decimal.StoulOfPrint | Source/Daemon/Process/Process_Data.cpp:194-194 | every 64-bit start time is read back |
| Decimal.RangesOfPrint | Source/Daemon/Process/Process_Data.cpp:192-194 | which printed numbers are out of range for `stoi` and `stoul`, and how a negative one wraps |
| ProcessData.FirstCloser | Source/Daemon/Process/Process_Data.cpp:173-177 | the first word that ends in a closing parenthesis |
| ProcessData.JoinWords | Source/Daemon/Process/Process_Data.cpp:163-187 | the token loop computes the items of the reference definition: every stretch from an opening word to the next closing one is one item |
| ProcessData.RoundTripIff | Source/Daemon/Process/Process_Data.cpp:163-203 | for every process: joining the words of its printed stat line gives one item for each field, equal to what was printed, if and only if only the last word of the parenthesised name ends in a parenthesis; otherwise there are more items |
| ProcessData.IllNamed | Source/Daemon/Process/Process_Data.cpp:163-187 | the name `a) b` is not of that kind: it becomes two items, and all later ones shift |
| ProcessData.ClosedItems | Source/Daemon/Process/Process_Data.cpp:167-187 | words that end with a closing one, followed by plain words, yield at least one item and one for each plain word |
| ProcessTracking.ReadStatFile | Source/Daemon/Process/Process_Data.cpp:156-220 | the constructor: what it stores, field by field, when a number is malformed, and when the program ends |
| ProcessTracking.ValidIffPresent | Source/Daemon/Process/Process_Data.cpp:160-219 | a reading is valid exactly if the process has a directory |
| ProcessTracking.IdIsTheOneAsked | Source/Daemon/Process/Process_Data.cpp:25-30 | whatever the process is called, the id read is the id asked for, as the source asserts |
| ProcessTracking.ReadsBack | Source/Daemon/Process/Process_Data.cpp:13-16 | a well-named process is read back as printed: id, parent id, state and start time from indices 0, 3, 2 and 21 |
| ProcessTracking.PathIsLinkTarget | Source/Daemon/Process/Process_Data.cpp:205-214 | the executable path is the target of the exe link, or empty if the link cannot be read |
| ProcessTracking.StateIsRead | Source/Daemon/Process/Process_Data.cpp:203-203 | the state stored for each letter |
| ProcessTracking.ShortLineEndsProgram | Source/Daemon/Process/Process_Data.cpp:192-203 | a line with too few items ends the program |
| ProcessTracking.LargeNumberEndsProgram | Source/Daemon/Process/Process_Data.cpp:190-202 | so does a parent id or start time that does not fit its type, as out_of_range is not caught |
| ProcessTracking.IllNamedMisread | Source/Daemon/Process/Process_Data.cpp:190-203 | a process called `a) b` is read with its id, an unknown state, no parent and no start time |
| ProcessTracking.UpdateKeepsPathOrInvalidates | Source/Daemon/Process/Process_Data.cpp:98-109 | one update keeps the path or gives the invalid object, from which there is no way back |
| ProcessTracking.IdentityOverTime | Source/Daemon/Process/Process_Data.cpp:98-109 | over any sequence of updates and any evolution of `/proc`: valid data has its original path and was valid all the time; invalid data stays invalid |
| ProcessTracking.ReuseNoticedIff | Source/Daemon/Process/Process_Data.cpp:96-109 | an object read from one process and updated when its pid names another, started at another time: it is invalidated if and only if the exe links differ, and otherwise becomes what is read of the other process, start time and all |
| ProcessTracking.ReuseGoesUnnoticed | Source/Daemon/Process/Process_Data.cpp:96-109 | two processes with pid 7 and one executable, started at times 1 and 2: the object stays valid and its start time changes |
| ProcessTracking.Security.Load | Source/Daemon/Process/Process_Security.cpp:80-87 | reads the own process and, if that is valid, its parent; there is no object if a reading ended the program |
| ProcessTracking.Security.ParentProcessRunning | Source/Daemon/Process/Process_Security.cpp:134-142 | updates the stored parent; true if and only if the process with its id still has the same exe link and its state letter is none of T, Z, X and x; false if there is no such process |
| ProcessTracking.AliveIff | Source/Daemon/Process/Process_Security.cpp:134-142 | the same of the update |
| LockFile.DirectoryHelps | Source/Daemon/DaemonLoop.cpp:159-178 | after `createDir` on the parent string succeeded, open does not report ENOENT again |
| LockFile.LockOpensIff | Source/Daemon/DaemonLoop.cpp:138-190 | without interference the lock file is opened if and only if it is there and neither directory nor socket, or its directory exists or can be made and permits it |
| LockFile.MeetsAfterSignals | Source/Daemon/DaemonLoop.cpp:147-158 | signals other than SIGTERM do not count: what comes after them decides |
| LockFile.OpenLock | Source/Daemon/DaemonLoop.cpp:138-190 | for every lock path and every sequence of signals and failures: the loop ends, makes directories at most once and only after ENOENT, adds nothing but directories on the way to the lock path and the lock file, and its result is that of the definition without the loop: settled by the first call that no other signal interrupts, and after an ENOENT by the second |
| DaemonLoop.DaemonLoop.AcquireLock | Source/Daemon/DaemonLoop.cpp:136-212 | without interference it passes if and only if the lock is free and the lock file can be opened or made, told of the tree; otherwise already running; SIGTERM first means success, another error already running; it passes only with its descriptor open and locked, and else keeps none |
| DaemonLoop.VerdictOfTree | Source/Daemon/DaemonLoop.cpp:136-212 | the same of the verdict that the order of checks contains |
| DaemonLoop.DaemonLoop.RunLoop | Source/Daemon/DaemonLoop.cpp:119-302 | the result is the first item that fails in the fixed order of checks, the lock's verdict among them; the calls of `loopAction` are exactly those of the reference definition, none without the lock; `loopRunning` stays set exactly after the exits that do not clear it |
| DaemonLoop.DaemonLoop.MainLoop | Source/Daemon/DaemonLoop.cpp:260-301 | the loop gives the result and the calls of the reference definition |
| DaemonLoop.FirstFailureDecides | Source/Daemon/DaemonLoop.cpp:119-302 | a run passes if and only if all items do; otherwise its result is an item that all earlier ones let through |
| DaemonLoop.StartDecided | Source/Daemon/DaemonLoop.cpp:121-260 | the order and codes of the checks before the loop |
| DaemonLoop.IterationDecided | Source/Daemon/DaemonLoop.cpp:268-297 | the order and codes of one iteration, and when it calls `loopAction` |
| DaemonLoop.CallFacts | Source/Daemon/DaemonLoop.cpp:268-297 | the c-th call is made by the c-th iteration, past all its guards |
| DaemonLoop.HealthyRunActs | Source/Daemon/DaemonLoop.cpp:119-302 | a run in which nothing is wrong, told of the processes and their exe links, calls `loopAction` in every iteration and goes on |
| DaemonLoop.WrongPathIsRefused | Source/Daemon/DaemonLoop.cpp:213-230 | a daemon or parent whose path is not the required one gets the code for that, and `loopAction` is never called |
| DaemonLoop.ParentIdentity | Source/Daemon/DaemonLoop.cpp:222-282 | with a required parent path and running parent: at every `loopAction` call of every run the parent data is valid, alive and has the required path |
| DaemonLoop.TimeoutBoundsCalls | Source/Daemon/DaemonLoop.cpp:284-295 | no call starts once DF_TIMEOUT seconds have passed; if the clock moves by at least d between looks there are at most ceil(timeout / d) calls |
| DaemonLoop.TermStopsCalls | Source/Daemon/DaemonLoop.cpp:270-275 | only the last call can have started after the termination flag was set |
| SingleInstance.StepKeepsInv | Source/Daemon/DaemonLoop.cpp:119-302 | every step of any thread of any process, and every start, end or destruction, keeps the invariant about `loopRunning`, open descriptions and the lock |
| SingleInstance.SingleInstance | Source/Daemon/DaemonLoop.cpp:121-210 | in every reachable state at most one thread of the whole system is past the lock; and at most one in each process, even without a lock file |
| SingleInstance.LoserReleasesNothing | Source/Daemon/DaemonLoop.cpp:199-209 | what a loser closes is its own description, which does not hold the lock |
| SingleInstance.OnlyOwnerReleases | Source/Daemon/DaemonLoop.cpp:91-112 | a held lock is released only when the process that holds it ends or destroys its DaemonLoop |
| SingleInstance.NoSecondRun | Source/Daemon/DaemonLoop.cpp:192-210 | after a loop has returned, no later run in the same process gets past the lock, and the lock stays where it is, until that process ends or destroys its DaemonLoop |
| SingleInstance.DestroyFreesIff | Source/Daemon/DaemonLoop.cpp:91-112 | destroying the DaemonLoop of a process that kept the lock frees it if and only if `lockFD` still names the description that holds it |
| SingleInstance.ShutOutRunKeepsLock | Source/Daemon/DaemonLoop.cpp:199-209 | after a later run was shut out it does not: `lockFD` is 0 then, and only the end of the process frees the lock |
| LoopRefinement.LoopRefines | Source/Daemon/DaemonLoop.cpp:268-301 | the main loop of the sequential model is a sequence of steps of one thread of the system, with as many entries into `loopAction` |
| LoopRefinement.RunRefines | Source/Daemon/DaemonLoop.cpp:119-302 | so is every whole run, whatever its result: it leaves `loopRunning` the same in both, and ends idle, still looping, or with the process |
| DaemonControl.CodeArrives | Source/Parent/DaemonControl.cpp:307-317 | the status word carries every integer exit code modulo 256, negative ones too, and tells exited from killed |
| DaemonControl.CodeUnchangedIff | Source/Parent/DaemonControl.cpp:294-327 | the result of `runLoop` reaches the caller of `waitToExit` unchanged if and only if it is from 0 to 255 |
| DaemonControl.ReapKeepsBooks | Source/Parent/DaemonControl.cpp:231-250 | reaping keeps the balance: every child born is unreaped, under one pid, or was reaped exactly once |
| DaemonControl.Processes.WaitPid | Source/Parent/DaemonControl.cpp:231-250 | waitpid reaps a child that ended, once, and knows no other pid |
| DaemonControl.DaemonControl.StartDaemon | Source/Parent/DaemonControl.cpp:136-153 | does nothing while `daemonProcess` is set; otherwise it becomes the new child, or -1 if fork fails |
| DaemonControl.DaemonControl.IsDaemonRunning | Source/Parent/DaemonControl.cpp:223-256 | true exactly if the daemon still runs; one that ended is reaped, its code stored, and `daemonProcess` cleared |
| DaemonControl.DaemonControl.StopDaemon | Source/Parent/DaemonControl.cpp:188-219 | SIGTERM, and SIGKILL only if that was ignored, to the daemon itself; it is reaped once, its code stored, and `daemonProcess` is 0; after a failed fork the signal goes to pid -1 |
| DaemonControl.DaemonControl.GetDaemonProcessID | Source/Parent/DaemonControl.cpp:270-277 | the daemon's pid if it runs, else 0 |
| DaemonControl.DaemonControl.GetExitCode | Source/Parent/DaemonControl.cpp:281-290 | 0 while the daemon runs, else the last code |
| DaemonControl.DaemonControl.WaitToExit | Source/Parent/DaemonControl.cpp:294-327 | enters its loop at most once, reaps the daemon, clears `daemonProcess`, and returns the exit code modulo 256 |
| DaemonControl.AnyCalls | Source/Parent/DaemonControl.cpp:117-327 | over any sequence of calls: at most one unreaped daemon, it is the one `daemonProcess` names, none is reaped twice; and every signal goes to an unreaped daemon if and only if no `stopDaemon` follows a failed fork with no query or wait in between |
| DaemonControl.NoFailedForkNoHarm | Source/Parent/DaemonControl.cpp:153-194 | which never happens if no fork fails |
| DaemonControl.FailedFork | Source/Parent/DaemonControl.cpp:153-194 | a failed fork followed by `stopDaemon` signals every process |

## Left out

- Debug and logging macros, the assertion macro, makefiles and the project's own test programs.
- Real system calls, replaced by the abstract kernel. Assumed of them: a blocking write is complete; waitpid is not interrupted; `pthread_create` stores the thread's id before that thread runs; `open` is the only cancellation point; the Reader's `close`, which is not retried, releases the descriptor; the read buffer is smaller than 2^31 bytes; links read from `/proc` are shorter than PATH_MAX.
- Objects, references and object lifetime in the pipe modules and SingleInstance: threads share one value there, so aliasing and the freeing of the buffer under an unjoined read loop are not captured.
- A second `closePipe` after a cancelled init thread (it would join a joined thread), a listener that calls `closePipe` from the loop thread, and calls of `openPipe` or `closePipe` from several threads at once.
- PipeWriter.NoLostWakeup: says nothing of clients that wait when the init thread is cancelled, or while it is never started; they may wait for ever.
- PipeReader.CloseCanReturn: says that a close can return, not that every fair schedule makes it return within a time; select, read and the listener are taken to return.
- Symbolic links and the components "." and "..", which are ordinary names in the tree; permissions other than a set of directories in which nothing may be created; limits on the length of names.
- FileUtils.CreateDir: mode_t is taken to have the twelve permission bits, and mkdir to ignore set-user-ID and set-group-ID.
- Changes to the directory tree by other processes while `createDir`, `createPipe` or the lock loop runs.
- `getChildProcesses`, `getAllPIDs`, `directorySecured`, the state names, and `cleanupFileTable`: look-ups and scans; whether a directory is secure is an input of `runLoop`.
- The registration of the SIGTERM handler, which calls sigaction before the handler is set; the termination flag is an input.
- Pipes inside DaemonLoop and DaemonControl: both open and close them around what is modelled; what a pipe promises is in PipeReader and PipeWriter.
- DaemonLoop.DaemonLoop.RunLoop: the lock, the clock, the flag and the results of `loopAction` are given by a finite script, so that a loop that never ends shows as every finite part of its run.
- SingleInstance.SingleInstance: descriptor numbers are not modelled, nor a lock file on descriptor 0 or one that is deleted or replaced, nor descriptions shared over fork; an interrupted close of the lock file is one close.
- DaemonControl.AnyCalls: the application has no other children, and nothing else waits for the daemon.
- What the forked side does between fork and exec, the arguments passed on, and the two seconds `stopDaemon` sleeps: what SIGTERM achieves in them is an input.
