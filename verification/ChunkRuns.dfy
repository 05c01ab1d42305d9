// One copy of an oplog chunk over its whole life (internal/copies/chunks.go,
// internal/store/chunkcopies.go): runs of the queue one after the other, each of them a plan, a
// pass and a purge, under the queue's mutex. The copy targets of the stream, the state of the
// chunk and what uploads give are arbitrary. Updates of the store succeed.
module ChunkRuns {
  import opened Decimal
  import opened CopyQueue

  /** Where a run is with this copy; key is the storage key of the chunk, id numbers the upload. */
  datatype Phase = Resting | Planning | Passing | Uploading(key: string) | InHand(key: string, up: Upload, id: nat) | Purging

  /** The row of the copy, if there is one, and the objects of successful uploads that no purge deleted. */
  datatype State = State(row: Option<Copy>, phase: Phase, objects: map<nat, string>, handed: set<nat>, uploads: nat)

  datatype Step =
    | StartRun
    | Plan(target: string, key: string, wanted: bool, live: bool)
    | Try(key: string, now: int)
    | Finish(up: Upload, stopped: bool)
    | RecordOutcome(at: int, sha: string)
    | EndPass
    | PurgeCopy(until: Option<int>)
    | EndRun

  /** PlanChunkCopies drops a queued copy on a target the stream no longer names only if it never wrote an object. */
  predicate Droppable(c: Copy) { (c.status == Pending || c.status == Failed) && !c.written && c.retainUntil.None? }

  predicate Enabled(s: State, step: Step) {
    match step
    case StartRun => s.phase.Resting?
    case Plan(_, _, _, _) => s.phase.Planning?
    case Try(_, now) => s.phase.Passing? && s.row.Some? && Due(s.row.value, now)
    case Finish(_, _) => s.phase.Uploading?
    case RecordOutcome(_, _) => s.phase.InHand?
    case EndPass => s.phase.Planning? || s.phase.Passing?
    case PurgeCopy(_) => s.phase.Purging? && s.row.Some? && s.row.value.status != Purged
    case EndRun => s.phase.Planning? || s.phase.Passing? || s.phase.Purging?
  }

  /** A purge deletes the object of a copy that may have one, and marks the copy. */
  function Purge(s: State, until: Option<int>): State
    requires s.row.Some?
  {
    var c := s.row.value;
    if MayExist(c) && until.Some? then s.(row := Some(c.(retainUntil := until)))
    else s.(row := Some(c.(status := Purged, nextAttempt := None)),
            objects := if MayExist(c) then map id | id in s.objects && s.objects[id] != c.key :: s.objects[id] else s.objects)
  }

  function Settle(cfg: Config, s: State, at: int, sha: string): State
    requires s.phase.InHand?
  {
    var r := SettleChunk(cfg, s.row, s.phase.key, s.phase.up, at, sha);
    if r.Recorded? then s.(row := Some(r.copy), phase := Passing)
    else if Removes(r, s.phase.up) && s.phase.up.Ok() then s.(handed := s.handed + {s.phase.id}, phase := Passing)
    else s.(phase := Passing)
  }

  function Apply(cfg: Config, s: State, step: Step): State
    requires Enabled(s, step)
  {
    match step
    case StartRun => s.(phase := Planning)
    case Plan(target, key, wanted, live) =>
      s.(phase := Passing,
         row := if wanted && live && s.row.None? then Some(Planned(target, key))
                else if !wanted && s.row.Some? && Droppable(s.row.value) then None
                else s.row)
    case Try(key, _) => s.(phase := Uploading(key))
    case Finish(up, stopped) =>
      if stopped && !up.Ok() then s.(phase := Resting)
      else s.(phase := InHand(s.phase.key, up, s.uploads), uploads := s.uploads + 1,
              objects := if up.Ok() then s.objects[s.uploads := s.phase.key] else s.objects)
    case RecordOutcome(at, sha) => Settle(cfg, s, at, sha)
    case EndPass => s.(phase := Purging)
    case PurgeCopy(until) => Purge(s, until)
    case EndRun => s.(phase := Resting)
  }

  ghost predicate Runs(cfg: Config, s: State, steps: seq<Step>, s': State)
    decreases |steps|
  {
    if steps == [] then s == s' else Enabled(s, steps[0]) && Runs(cfg, Apply(cfg, s, steps[0]), steps[1..], s')
  }

  /** A chunk without a copy. */
  predicate Init(s: State) { s.row.None? && s.phase.Resting? && s.objects == map[] && s.handed == {} && s.uploads == 0 }

  // ---- The invariant ----

  /** Nobody touches the row while its copy uploads: it is still waiting when the attempt settles it. */
  predicate WaitingInv(s: State) { s.phase.Uploading? || s.phase.InHand? ==> s.row.Some? && Waiting(s.row.value) }

  /** The object of a successful upload is recorded as done, handed to removal, or about to be recorded. */
  predicate Known(s: State, id: nat)
    requires id in s.objects
  {
    || id in s.handed
    || (s.phase.InHand? && s.phase.id == id && s.phase.up.Ok() && s.phase.key == s.objects[id])
    || (s.row.Some? && s.row.value.status == Done && s.row.value.key == s.objects[id])
  }

  ghost predicate Inv(s: State) { WaitingInv(s) && forall id :: id in s.objects ==> id < s.uploads && Known(s, id) }

  lemma InvStep(cfg: Config, s: State, step: Step)
    requires Inv(s) && Enabled(s, step)
    ensures Inv(Apply(cfg, s, step))
  {
    var s' := Apply(cfg, s, step);
    forall id | id in s'.objects
      ensures id < s'.uploads && Known(s', id)
    {
      if id in s.objects { assert Known(s, id); }
      if step.RecordOutcome? && s.phase.up.Ok() { ChunkUploadAccounted(cfg, s.row, s.phase.key, s.phase.up, step.at, step.sha); }
    }
  }

  lemma {:induction false} RunsInv(cfg: Config, s: State, steps: seq<Step>, s': State)
    requires Inv(s) && Runs(cfg, s, steps, s')
    ensures Inv(s')
    decreases |steps|
  {
    if steps != [] {
      InvStep(cfg, s, steps[0]);
      RunsInv(cfg, Apply(cfg, s, steps[0]), steps[1..], s');
    }
  }

  /**
   * No chunk object is lost: over every sequence of runs, whatever becomes of the chunk and the copy
   * targets of its stream, the object of each successful upload is recorded as done, handed to
   * removal, about to be recorded, or was deleted by the purge.
   */
  lemma NoChunkObjectLost(cfg: Config, s0: State, steps: seq<Step>, s: State, id: nat)
    requires Init(s0) && Runs(cfg, s0, steps, s) && id in s.objects
    ensures Known(s, id)
  {
    RunsInv(cfg, s0, steps, s);
  }

  /** In every run an attempt settles its copy: it is never skipped, and a successful upload is recorded or handed to removal. */
  lemma NeverSkipped(cfg: Config, s0: State, steps: seq<Step>, s: State, at: int, sha: string)
    requires Init(s0) && Runs(cfg, s0, steps, s) && s.phase.InHand?
    ensures var r := SettleChunk(cfg, s.row, s.phase.key, s.phase.up, at, sha);
            !r.Skipped? && (s.phase.up.Ok() ==> Accounted(r, s.phase.up, s.phase.key))
  {
    RunsInv(cfg, s0, steps, s);
    if s.phase.up.Ok() { ChunkUploadAccounted(cfg, s.row, s.phase.key, s.phase.up, at, sha); }
  }
}
