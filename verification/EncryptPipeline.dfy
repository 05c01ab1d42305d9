// An encrypted backup run as a protocol between mongodump, the encryption goroutine and
// the storage consumer (internal/backup/engine.go: execute, dumpProcess, encryptStage,
// encryptStream, classifyFailure), in every interleaving, with kills and aborts at any time.
module EncryptPipeline {
  import opened Numbers

  /** The writes of the age stream. An item is in transit until size pieces were read. */
  datatype Item = Header | Chunk(data: seq<Byte>) | Final(data: seq<Byte>)

  /** The plaintext of a ciphertext. */
  function Plain(items: seq<Item>): seq<Byte> {
    if items == [] then []
    else Plain(items[..|items| - 1]) + match items[|items| - 1] case Header => [] case Chunk(d) => d case Final(d) => d
  }

  /** A well-formed ciphertext that is authenticated to its end. */
  predicate Sealed(items: seq<Item>) {
    && |items| >= 2 && items[0].Header? && items[|items| - 1].Final?
    && forall i :: 0 < i < |items| - 1 ==> items[i].Chunk?
  }

  datatype Process = Running | Exited(ok: bool)

  /** The goroutine: what it does next after the write in transit. */
  datatype Stage = Opening | Copying | Reaping | Sealing | Finished(ok: bool) | Closed(ok: bool)

  /** A write in the pipe: it returns once the consumer has read all of it. */
  datatype Transit = None | Some(item: Item, left: nat)

  datatype Wait = Unreaped | Reaped(ok: bool)

  /** execute: Save, then abort, stop, reap and classify. */
  datatype Phase = Saving | Saved(ok: bool) | Aborted(ok: bool) | Stopped(ok: bool) | Classified(success: bool)

  datatype State = State(
    dump: seq<Byte>,      // what a complete run of mongodump writes
    out: seq<Byte>,       // what it has written to its stdout
    process: Process,
    stdoutClosed: bool,   // abort closed the reading end
    waited: Wait,         // the result reapOnce keeps
    got: nat,             // how much of out the goroutine has read
    buffer: seq<Byte>,    // plaintext inside the age writer
    stage: Stage,
    transit: Transit,
    readerClosed: bool,   // stop closed the ciphertext pipe
    consumed: seq<Item>,  // writes the consumer has read completely
    sawEnd: bool,         // the consumer was given end of stream
    phase: Phase)

  function Init(dump: seq<Byte>): State {
    State(dump, [], Running, false, Unreaped, 0, [], Opening, None, false, [], false, Saving)
  }

  datatype Step =
    | Produce(n: nat)            // mongodump writes
    | Exit(ok: bool)             // mongodump ends; successfully only when everything is written
    | Kill                       // mongodump is killed
    | AbortRun                   // a timeout, a stall or a cancellation kills mongodump and closes its stdout
    | Emit(n: nat, size: nat)    // the goroutine writes the header, a chunk or the last chunk
    | ReadPlain(n: nat)          // it reads n bytes of the dump
    | ReadEnd                    // it reads the end of the dump
    | StageFails                 // the encryption cannot start, a read of the dump fails, or the end cannot be sealed
    | WriteFails                 // its write fails, the pipe being closed
    | ReapStage(ok: bool)        // it reaps mongodump
    | CloseStage                 // it closes the pipe and ends
    | Consume(n: nat)            // the consumer reads n pieces of the write in transit
    | End                        // the consumer is given end of stream
    | SaveReturns(ok: bool)      // the storage driver returns, whenever and whatever it likes
    | Abort
    | Stop
    | Classify(ok: bool)         // execute reaps mongodump itself and classifies the run

  /** What reap may answer: an abort can make a finished process look failed, never the reverse. */
  predicate MayReap(s: State, ok: bool) {
    if s.waited.Reaped? then ok == s.waited.ok else s.process.Exited? && (ok ==> s.process.ok)
  }

  /** The goroutine stands between two operations. */
  predicate Ready(s: State) { s.transit.None? }

  predicate Enabled(s: State, step: Step) {
    match step
    case Produce(n) => s.process.Running? && |s.out| + n <= |s.dump|
    case Exit(ok) => s.process.Running? && (ok ==> s.out == s.dump)
    case Kill => true
    case AbortRun => true
    case Emit(n, size) =>
      Ready(s) && size > 0 && (s.stage.Opening? || (s.stage.Copying? && 0 < n < |s.buffer|) || s.stage.Sealing?)
    case ReadPlain(n) => Ready(s) && s.stage.Copying? && !s.stdoutClosed && s.got + n <= |s.out|
    case ReadEnd => Ready(s) && s.stage.Copying? && !s.stdoutClosed && s.got == |s.out| && s.process.Exited?
    case StageFails => Ready(s) && (s.stage.Opening? || s.stage.Copying? || s.stage.Sealing?)
    case WriteFails => s.transit.Some? && s.readerClosed
    case ReapStage(ok) => Ready(s) && s.stage.Reaping? && MayReap(s, ok)
    case CloseStage => Ready(s) && s.stage.Finished?
    case Consume(n) => s.phase.Saving? && s.transit.Some? && !s.readerClosed && 0 < n <= s.transit.left
    case End => s.phase.Saving? && s.transit.None? && s.stage == Closed(true)
    case SaveReturns(_) => s.phase.Saving?
    case Abort => s.phase.Saved?
    case Stop => s.phase.Aborted?
    case Classify(ok) => s.phase.Stopped? && s.stage.Closed? && MayReap(s, ok)
  }

  /** The item the goroutine writes next, what its buffer keeps and where it goes on. */
  function NextItem(s: State, n: nat): (Item, seq<Byte>, Stage)
    requires s.stage.Opening? || s.stage.Sealing? || (s.stage.Copying? && n <= |s.buffer|)
  {
    match s.stage
    case Opening => (Header, s.buffer, Copying)
    case Copying => (Chunk(s.buffer[..n]), s.buffer[n..], Copying)
    case Sealing => (Final(s.buffer), [], Finished(true))
  }

  function Killed(p: Process): Process { if p.Running? then Exited(false) else p }

  function Apply(s: State, step: Step): State
    requires Enabled(s, step)
  {
    match step
    case Produce(n) => s.(out := s.dump[..|s.out| + n])
    case Exit(ok) => s.(process := Exited(ok))
    case Kill => s.(process := Killed(s.process))
    case AbortRun => s.(process := Killed(s.process), stdoutClosed := true)
    case Emit(n, size) =>
      var (item, rest, next) := NextItem(s, n);
      s.(transit := Some(item, size), buffer := rest, stage := next)
    case ReadPlain(n) => s.(buffer := s.buffer + s.out[s.got..s.got + n], got := s.got + n)
    case ReadEnd => s.(stage := Reaping)
    case StageFails => s.(stage := Finished(false))
    case WriteFails => s.(transit := None, stage := Finished(false))
    case ReapStage(ok) => s.(waited := Reaped(ok), stage := if ok then Sealing else Finished(false))
    case CloseStage => s.(stage := Closed(s.stage.ok))
    case Consume(n) =>
      if n == s.transit.left then s.(transit := None, consumed := s.consumed + [s.transit.item])
      else s.(transit := Some(s.transit.item, s.transit.left - n))
    case End => s.(sawEnd := true)
    case SaveReturns(ok) => s.(phase := Saved(ok))
    case Abort => s.(phase := Aborted(s.phase.ok), process := Killed(s.process), stdoutClosed := true)
    case Stop => s.(phase := Stopped(s.phase.ok), readerClosed := true)
    case Classify(ok) => s.(waited := Reaped(ok), phase := Classified(s.phase.ok && ok && s.stage.ok))
  }

  ghost predicate Runs(s: State, steps: seq<Step>, s': State)
    decreases |steps|
  {
    if steps == [] then s' == s else Enabled(s, steps[0]) && Runs(Apply(s, steps[0]), steps[1..], s')
  }

  // ---- The invariant ----

  /** The writes so far, the one in transit included. */
  function Written(s: State): seq<Item> { s.consumed + if s.transit.Some? then [s.transit.item] else [] }

  predicate HeaderAndChunks(items: seq<Item>) {
    items != [] && items[0].Header? && forall i :: 0 < i < |items| ==> items[i].Chunk?
  }

  /** The dump is written in order, and a successful end means all of it was. */
  predicate Produced(s: State) {
    && |s.out| <= |s.dump| && s.out == s.dump[..|s.out|]
    && (s.process == Exited(true) ==> s.out == s.dump)
    && (s.waited == Reaped(true) ==> s.process == Exited(true))
    && s.got <= |s.out|
  }

  /** The goroutine neither loses nor reorders plaintext while it has not failed. */
  predicate Copied(s: State)
    requires s.got <= |s.out|
  {
    match s.stage
    case Opening => Written(s) == [] && s.got == 0 && s.buffer == []
    case Finished(false) => true
    case Closed(false) => true
    case _ => Plain(Written(s)) + s.buffer == s.out[..s.got]
  }

  predicate Shaped(s: State) {
    match s.stage
    case Opening => true
    case Copying => HeaderAndChunks(Written(s))
    case Reaping => HeaderAndChunks(Written(s)) && s.transit.None? && s.got == |s.out| && s.process.Exited?
    case Sealing => HeaderAndChunks(Written(s)) && s.transit.None? && s.got == |s.out| && s.waited == Reaped(true)
    case Finished(ok) => ok ==> Sealed(Written(s)) && s.buffer == [] && s.got == |s.out| && s.waited == Reaped(true)
    case Closed(ok) => s.transit.None? && (ok ==> Sealed(Written(s)) && s.buffer == [] && s.got == |s.out| && s.waited == Reaped(true))
  }

  predicate Judged(s: State) {
    && (s.sawEnd ==> s.stage == Closed(true))
    && (s.phase.Classified? ==> s.stage.Closed? && (s.phase.success ==> s.stage.ok))
  }

  predicate Inv(s: State) { Produced(s) && Copied(s) && Shaped(s) && Judged(s) }

  lemma PlainAppend(items: seq<Item>, item: Item)
    ensures Plain(items + [item]) == Plain(items) + match item case Header => [] case Chunk(d) => d case Final(d) => d
  {
    assert (items + [item])[..|items|] == items;
  }

  lemma EmitPlain(items: seq<Item>, item: Item, buffer: seq<Byte>, rest: seq<Byte>)
    requires buffer == (match item case Header => [] case Chunk(d) => d case Final(d) => d) + rest
    ensures Plain(items + [item]) + rest == Plain(items) + buffer
  {
    PlainAppend(items, item);
  }

  lemma EmitHeader(s: State, step: Step)
    requires Inv(s) && Enabled(s, step) && step.Emit? && s.stage.Opening?
    ensures Inv(Apply(s, step))
  {
    assert s.consumed == [];
    EmitPlain([], Header, [], []);
    assert Written(Apply(s, step)) == [] + [Header];
  }

  lemma EmitChunk(s: State, step: Step)
    requires Inv(s) && Enabled(s, step) && step.Emit? && s.stage.Copying?
    ensures Inv(Apply(s, step))
  {
    var chunk := Chunk(s.buffer[..step.n]);
    assert Written(s) == s.consumed && Written(Apply(s, step)) == s.consumed + [chunk];
    assert s.buffer == s.buffer[..step.n] + s.buffer[step.n..];
    EmitPlain(s.consumed, chunk, s.buffer, s.buffer[step.n..]);
  }

  lemma EmitFinal(s: State, step: Step)
    requires Inv(s) && Enabled(s, step) && step.Emit? && s.stage.Sealing?
    ensures Inv(Apply(s, step))
  {
    assert Written(s) == s.consumed && Written(Apply(s, step)) == s.consumed + [Final(s.buffer)];
    EmitPlain(s.consumed, Final(s.buffer), s.buffer, []);
  }

  lemma ConsumeKeeps(s: State, step: Step)
    requires Inv(s) && Enabled(s, step) && step.Consume?
    ensures Inv(Apply(s, step))
  {
    var s' := Apply(s, step);
    if step.n == s.transit.left {
      assert s'.consumed + [] == s.consumed + [s.transit.item];
    } else {
      assert s'.consumed == s.consumed && s'.transit.item == s.transit.item;
    }
    assert Written(s') == Written(s);
  }

  lemma ReadKeeps(s: State, step: Step)
    requires Inv(s) && Enabled(s, step) && (step.ReadPlain? || step.Produce?)
    ensures Inv(Apply(s, step))
  {
    var s' := Apply(s, step);
    if step.Produce? {
      assert s'.out[..s.got] == s.out[..s.got];
    } else {
      assert s.out[..s.got + step.n] == s.out[..s.got] + s.out[s.got..s.got + step.n];
      assert Plain(Written(s)) + (s.buffer + s.out[s.got..s.got + step.n]) == Plain(Written(s)) + s.buffer + s.out[s.got..s.got + step.n];
    }
  }

  /** The steps that move no bytes. */
  lemma ControlKeeps(s: State, step: Step)
    requires Inv(s) && Enabled(s, step) && !step.Emit? && !step.Consume? && !step.ReadPlain? && !step.Produce? && !step.WriteFails?
    ensures Inv(Apply(s, step))
  {
    assert Written(Apply(s, step)) == Written(s);
  }

  /** Every step keeps the invariant. */
  lemma InvStep(s: State, step: Step)
    requires Inv(s) && Enabled(s, step)
    ensures Inv(Apply(s, step))
  {
    if step.Emit? {
      if s.stage.Opening? {
        EmitHeader(s, step);
      } else if s.stage.Copying? {
        EmitChunk(s, step);
      } else {
        EmitFinal(s, step);
      }
    } else if step.Consume? {
      ConsumeKeeps(s, step);
    } else if step.ReadPlain? || step.Produce? {
      ReadKeeps(s, step);
    } else if !step.WriteFails? {
      ControlKeeps(s, step);
    }
  }

  lemma {:induction false} RunsInv(s: State, steps: seq<Step>, s': State)
    requires Inv(s) && Runs(s, steps, s')
    ensures Inv(s') && s'.dump == s.dump
    decreases |steps|
  {
    if steps != [] {
      InvStep(s, steps[0]);
      RunsInv(Apply(s, steps[0]), steps[1..], s');
    }
  }

  /** A stage that closed without an error: the whole dump is sealed and consumed. */
  lemma ClosedComplete(s: State)
    requires Inv(s) && s.stage == Closed(true)
    ensures Sealed(s.consumed) && Plain(s.consumed) == s.dump && s.waited == Reaped(true)
  {
    assert Written(s) == s.consumed;
    assert s.out[..s.got] == s.out == s.dump;
    assert Plain(s.consumed) + [] == Plain(s.consumed);
  }

  /**
   * In every run the consumer is given end of stream only after mongodump was reaped
   * successfully and everything up to the sealed last chunk was read: what it has then
   * is a complete ciphertext of the complete dump.
   */
  lemma EndMeansComplete(dump: seq<Byte>, steps: seq<Step>, s: State)
    requires Runs(Init(dump), steps, s) && s.sawEnd
    ensures s.waited == Reaped(true) && s.process == Exited(true)
    ensures Sealed(s.consumed) && Plain(s.consumed) == dump
  {
    RunsInv(Init(dump), steps, s);
    ClosedComplete(s);
  }

  /**
   * No truncated archive is recorded as complete: a run classified as a success has
   * stored a sealed ciphertext of the complete dump, even when the storage driver
   * returned early and kept the error to itself.
   */
  lemma SuccessMeansComplete(dump: seq<Byte>, steps: seq<Step>, s: State)
    requires Runs(Init(dump), steps, s) && s.phase == Classified(true)
    ensures Sealed(s.consumed) && Plain(s.consumed) == dump && s.waited == Reaped(true)
  {
    RunsInv(Init(dump), steps, s);
    ClosedComplete(s);
  }

  /**
   * The verdict is exact: the classification of a run is a success if and only if the
   * driver returned without an error and the stage sealed the dump.
   */
  lemma SuccessIff(dump: seq<Byte>, steps: seq<Step>, s: State, ok: bool)
    requires Runs(Init(dump), steps, s) && Enabled(s, Classify(ok))
    ensures Apply(s, Classify(ok)).phase.success <==> s.phase.ok && s.stage.ok
  {
    RunsInv(Init(dump), steps, s);
  }

  /** A consumer that read to the end of stream and stored it is never called a failure. */
  lemma EndIsKept(dump: seq<Byte>, steps: seq<Step>, s: State, ok: bool)
    requires Runs(Init(dump), steps, s) && s.sawEnd && s.phase == Stopped(true)
    ensures Enabled(s, Classify(ok)) <==> ok
    ensures ok ==> Enabled(s, Classify(ok)) && Apply(s, Classify(ok)).phase == Classified(true)
  {
    RunsInv(Init(dump), steps, s);
  }
}
