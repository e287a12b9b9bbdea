/**
 One FIFO with a Pipe::Writer at one end and a Pipe::Reader at the other, each in its own
 process.  The two run interleaved; a write that succeeds on the writer's descriptor puts
 its message into the reader's FIFO in the same step, as a blocking write that completes does.
 */
module PipeChannel {
  import opened Prelude
  import opened Descriptors
  import W = PipeWriter
  import R = PipeReader

  datatype State = State(w: W.State, r: R.State)

  /** The reader's environment is the writer here, so its `Arrive` is not a step of its own. */
  datatype Step = WriterStep(ws: W.Step) | ReaderStep(rs: R.Step)

  /** What a writer step puts into the FIFO: the message of a write on the descriptor that names it. */
  function Written(s: W.State, step: W.Step): Bytes {
    if W.Writes(s, step) && IsMine(s.files.table, s.pipeFile) then s.clients[step.k].msg else []
  }

  function Next(s: State, step: Step): Option<State> {
    match step
    case WriterStep(ws) =>
      var next := W.Next(s.w, ws);
      if next.None? then None
      else Some(State(next.value, R.EnvNext(s.r, R.Arrive(Written(s.w, ws))).value))
    case ReaderStep(rs) =>
      if rs.Env? && rs.e.Arrive? then None
      else
        var next := R.Next(s.r, rs);
        if next.None? then None else Some(s.(r := next.value))
  }

  function Run(s: State, steps: seq<Step>): Option<State>
    decreases |steps|
  {
    if steps == [] then Some(s)
    else
      match Next(s, steps[0])
      case None => None
      case Some(t) => Run(t, steps[1..])
  }

  ghost predicate Initial(s: State) {
    W.Initial(s.w) && R.Initial(s.r) && s.r.stream.fifo == []
  }

  ghost predicate Inv(s: State) {
    W.Inv(s.w) && R.Inv(s.r) && Flatten(s.w.sent) == s.r.stream.arrived
  }

  /** What the writer counts as sent is what it put into the FIFO. */
  lemma SentIsWritten(s: W.State, step: W.Step)
    requires W.Inv(s) && W.Next(s, step).Some?
    ensures Flatten(W.Next(s, step).value.sent) == Flatten(s.sent) + Written(s, step)
  {
    W.WriteRecorded(s, step);
    if W.Writes(s, step) {
      W.PipeFileAtWrite(s, step.k);
      FlattenSnoc(s.sent, s.clients[step.k].msg);
    }
    hide W.Inv, W.Next, Flatten;
  }

  lemma ArrivedOnlyByArrive(s: R.State, step: R.Step)
    requires R.Next(s, step).Some? && !(step.Env? && step.e.Arrive?)
    ensures R.Next(s, step).value.stream.arrived == s.stream.arrived
  {
  }

  lemma NextKeepsInv(s: State, step: Step)
    requires Inv(s) && Next(s, step).Some?
    ensures Inv(Next(s, step).value)
  {
    hide W.Inv, R.Inv, W.Next, R.Next;
    match step
    case WriterStep(ws) =>
      W.NextKeepsInv(s.w, ws);
      SentIsWritten(s.w, ws);
      ArriveKeepsReader(s.r, Written(s.w, ws));
    case ReaderStep(rs) =>
      R.NextKeepsInv(s.r, rs);
      ArrivedOnlyByArrive(s.r, rs);
  }

  lemma ArriveKeepsReader(r: R.State, bytes: Bytes)
    requires R.Inv(r)
    ensures var t := R.EnvNext(r, R.Arrive(bytes)).value; R.Inv(t) && t.stream.arrived == r.stream.arrived + bytes
  {
    assert R.Next(r, R.Env(R.Arrive(bytes))) == R.EnvNext(r, R.Arrive(bytes));
    R.NextKeepsInv(r, R.Env(R.Arrive(bytes)));
    hide R.Inv;
  }

  lemma {:induction false} RunKeepsInv(s: State, steps: seq<Step>)
    requires Inv(s) && Run(s, steps).Some?
    ensures Inv(Run(s, steps).value)
    decreases |steps|
  {
    hide Inv, Next;
    if steps != [] {
      NextKeepsInv(s, steps[0]);
      RunKeepsInv(Next(s, steps[0]).value, steps[1..]);
    }
  }

  /** The writer's part of a run. */
  function WriterSteps(steps: seq<Step>): seq<W.Step> {
    if steps == [] then []
    else (if steps[0].WriterStep? then [steps[0].ws] else []) + WriterSteps(steps[1..])
  }

  lemma {:induction false} WriterRuns(s: State, steps: seq<Step>)
    requires Run(s, steps).Some?
    ensures W.Run(s.w, WriterSteps(steps)) == Some(Run(s, steps).value.w)
    decreases |steps|
  {
    hide W.Next, R.Next, R.EnvNext;
    if steps != [] {
      WriterRuns(Next(s, steps[0]).value, steps[1..]);
      if steps[0].WriterStep? {
        assert WriterSteps(steps)[1..] == WriterSteps(steps[1..]);
      } else {
        assert WriterSteps(steps) == WriterSteps(steps[1..]);
      }
    }
  }

  /** All bytes at the reader's end, in the order they came in. */
  function AtReader(r: R.State): Bytes {
    Flatten(r.stream.delivered) + r.stream.dropped + R.InHand(r.loop) + r.stream.fifo
  }

  /**
   End to end, over every run with any number of sending threads: what the listener was
   given, then what was read without a listener, then the chunk in hand, then what is
   still in the FIFO, is the concatenation of the messages that went into the pipe, in
   lock order.  These are all messages for which sendData reported success, exactly if no
   write succeeded after the close.  Every chunk given to the listener has 1..bufSize bytes.
   */
  lemma BytesConserved(start: State, steps: seq<Step>)
    requires Initial(start) && Run(start, steps).Some?
    ensures var s := Run(start, steps).value;
            && AtReader(s.r) == Flatten(s.w.sent)
            && (forall k :: 0 <= k < |s.r.stream.delivered| ==> 1 <= |s.r.stream.delivered[k]| <= s.r.cfg.bufSize)
    ensures W.Run(start.w, WriterSteps(steps)).Some?
    ensures Run(start, steps).value.w.reported == Run(start, steps).value.w.sent <==>
              W.LateWrites(start.w, WriterSteps(steps)) == 0
  {
    assert Inv(start) by {
      W.InitialInv(start.w);
      R.InitialInv(start.r);
    }
    RunKeepsInv(start, steps);
    WriterRuns(start, steps);
    W.ReportedIsSentIff(start.w, WriterSteps(steps));
    hide Run, W.Run, R.Protocol, R.FileSafe, W.Inv, W.Initial, R.Initial, W.LateWrites, WriterSteps;
  }

  lemma {:induction false} RunAppend(s: State, a: seq<Step>, b: seq<Step>)
    ensures Run(s, a + b) == if Run(s, a).Some? then Run(Run(s, a).value, b) else None
    decreases |a|
  {
    hide Next;
    if a == [] {
      assert a + b == b;
    } else if Next(s, a[0]).Some? {
      assert (a + b)[1..] == a[1..] + b;
      RunAppend(Next(s, a[0]).value, a[1..], b);
    }
  }

  lemma {:induction false} NoWriterSend(steps: seq<Step>)
    requires forall k :: 0 <= k < |steps| ==>
               !(steps[k].WriterStep? && steps[k].ws.Client? && steps[k].ws.l.BeginSend?)
    ensures forall k :: 0 <= k < |WriterSteps(steps)| ==>
              !(WriterSteps(steps)[k].Client? && WriterSteps(steps)[k].l.BeginSend?)
  {
    if steps != [] {
      NoWriterSend(steps[1..]);
    }
  }

  /**
   With no send in progress when the writer closes and none begun later, every message for
   which sendData reported success is at the reader's end, whole and in lock order.
   */
  lemma ReportedArrives(start: State, before: seq<Step>, after: seq<Step>)
    requires Initial(start) && Run(start, before).Some? && Run(start, before + after).Some?
    requires var s := Run(start, before).value.w;
             s.files.closes == 0 && forall k :: 0 <= k < |s.clients| ==> !W.Sending(s.clients[k])
    requires forall k :: 0 <= k < |after| ==> !(after[k].WriterStep? && after[k].ws.Client? && after[k].ws.l.BeginSend?)
    ensures var t := Run(start, before + after).value; AtReader(t.r) == Flatten(t.w.reported)
  {
    var mid := Run(start, before).value;
    BytesConserved(start, before + after);
    RunAppend(start, before, after);
    WriterRuns(start, before);
    WriterRuns(mid, after);
    NoWriterSend(after);
    hide Run, W.Run, W.Initial, R.Initial, WriterSteps, AtReader, W.Sending;
    W.SendsBeforeCloseArrive(mid.w, WriterSteps(after));
  }

  /** openPipe is always given a listener. */
  predicate Listens(step: Step) {
    step.ReaderStep? && step.rs.Ctl? && step.rs.c.OpenPipe? ==> step.rs.c.hasListener
  }

  /** A read loop exists only after an openPipe, so a listener is set whenever a chunk is in hand. */
  ghost predicate Listening(s: R.State) {
    && s.stream.dropped == []
    && (s.ctl.OpenWait? || s.ctl.OpenHeld? || s.flags.started ==> s.r.listener)
  }

  lemma ListeningStep(s: R.State, step: R.Step)
    requires Listening(s) && R.Next(s, step).Some?
    requires s.loop.Deliver? ==> s.flags.started
    requires step.Ctl? && step.c.OpenPipe? ==> step.c.hasListener
    ensures Listening(R.Next(s, step).value)
  {
    match step
    case Ctl(_) => hide R.InitNext, R.LoopNext, R.EnvNext;
    case Init(_) => hide R.CtlNext, R.LoopNext, R.EnvNext;
    case Loop(_) => hide R.CtlNext, R.InitNext, R.EnvNext;
    case Env(_) => hide R.CtlNext, R.InitNext, R.LoopNext;
  }

  lemma DeliverAfterStart(s: State)
    requires Inv(s)
    ensures s.r.loop.Deliver? ==> s.r.flags.started
  {
  }

  lemma ArriveKeepsListening(r: R.State, bytes: Bytes)
    requires Listening(r)
    ensures Listening(R.EnvNext(r, R.Arrive(bytes)).value)
  {
  }

  lemma {:induction false} ListeningRun(s: State, steps: seq<Step>)
    requires Inv(s) && Listening(s.r) && Run(s, steps).Some?
    requires forall k :: 0 <= k < |steps| ==> Listens(steps[k])
    ensures Listening(Run(s, steps).value.r)
    decreases |steps|
  {
    if steps != [] {
      var step := steps[0];
      DeliverAfterStart(s);
      hide Inv, W.Next, R.Next, Listening;
      NextKeepsInv(s, step);
      if step.ReaderStep? {
        ListeningStep(s.r, step.rs);
      } else {
        ArriveKeepsListening(s.r, Written(s.w, step.ws));
      }
      ListeningRun(Next(s, step).value, steps[1..]);
    }
  }

  /** If every openPipe names a listener, no byte is ever dropped: the listener gets a prefix of what was sent. */
  lemma ListenerGetsPrefix(start: State, steps: seq<Step>)
    requires Initial(start) && Run(start, steps).Some?
    requires forall k :: 0 <= k < |steps| ==> Listens(steps[k])
    ensures Flatten(Run(start, steps).value.r.stream.delivered) <= Flatten(Run(start, steps).value.w.sent)
  {
    BytesConserved(start, steps);
    assert Inv(start) by {
      W.InitialInv(start.w);
      R.InitialInv(start.r);
    }
    ListeningRun(start, steps);
    hide Run;
  }
}
