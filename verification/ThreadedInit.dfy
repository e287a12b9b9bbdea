/**
 The data ThreadedInit guards with initMutex, and what its three short critical
 sections do to that data.  Who may run a section, and when, is decided by the
 transition systems in PipeReader and PipeWriter, which both inherit the protocol.
 */
module ThreadedInit {

  datatype Flags = Flags(
    started: bool,          // initStarted
    finished: bool,         // initFinished
    succeeded: bool,        // initSucceeded
    hasThread: bool,        // initThreadID != 0
    cancelRequested: bool,  // pthread_cancel(initThreadID) was called
    threadsCreated: nat)    // how many init threads were ever created

  const FRESH_FLAGS := Flags(false, false, false, false, false, 0)

  /** startInitThread, under initMutex; `created` is whether pthread_create succeeds. */
  function StartInit(f: Flags, created: bool): Flags {
    if f.started then f
    else if created then f.(started := true, hasThread := true, threadsCreated := f.threadsCreated + 1)
    else f.(started := true, finished := true, succeeded := false)
  }

  /** Whether startInitThread called now, with this outcome, gives birth to a thread. */
  predicate StartsThread(f: Flags, created: bool) {
    !f.started && created
  }

  /** cancelInit goes on to cancel and join exactly when its early return is not taken. */
  predicate MustCancel(f: Flags) {
    !(!f.started || f.finished || !f.hasThread)
  }

  /** The last section of threadAction, under initMutex. */
  function Publish(f: Flags, result: bool): Flags {
    f.(finished := true, succeeded := result)
  }

  /** What the flags say outside the critical sections, whatever ran before. */
  predicate Coherent(f: Flags) {
    && f.threadsCreated == (if f.hasThread then 1 else 0)
    && (f.hasThread ==> f.started)
    && (f.finished ==> f.started)
    && (f.succeeded ==> f.finished && f.hasThread)
    && (f.started && !f.hasThread ==> f.finished)
    && (f.cancelRequested ==> f.hasThread)
  }
}
