// One copy of a backup over its whole life (internal/copies/queue.go, internal/models/copy.go,
// internal/scheduler/purge.go, internal/scheduler/purgecopies.go, internal/store/reencrypt.go):
// attempts of the queue, deletion, undeletion and purge of the backup, retries, re-queuing of
// damaged copies and re-encryption, in any order. Updates of the store succeed.
module CopyRuns {
  import opened Decimal
  import opened CopyQueue

  datatype BackupStatus = Completed | DeletedBackup | PurgedBackup

  /** The backup's record, as far as this copy depends on it. */
  datatype Record = Record(status: BackupStatus, archive: string, copy: Option<Copy>)

  /** The queue's worker: it holds the lock on key once it has decided to upload; id numbers its upload. */
  datatype Worker = Idle | Uploading(key: string) | InHand(key: string, up: Upload, id: nat)

  /** The record a purge works on: the backup's own, or the tombstone of an archive it was re-encrypted from. */
  datatype Whose = Own | Tombstone(j: nat)

  /**
   * The purge, under the deletion lock of the backup's job: it decided to delete the object of a
   * copy, locked it, deleted it, and released its lock (until: it is still under its Object Lock)
   * before it marks the copy; at last it marks the record.
   */
  datatype Purger =
    | Free
    | Decided(of: Whose, key: string)
    | Locked(of: Whose, key: string)
    | Emptied(of: Whose, key: string)
    | Unlocked(of: Whose, key: string, until: Option<int>)
    | Finishing(of: Whose)

  /**
   * The record (None: removed), the copies on the tombstones of a re-encryption, the worker and the
   * purge, the keys ever used, the objects of successful uploads that no purge deleted (by the
   * number of the upload), and those handed to removal. requeued and dropped are history: the
   * objects whose done copy was queued again as damaged, and those whose copy then lost track of
   * them.
   */
  datatype State = State(rec: Option<Record>, graves: seq<Copy>, worker: Worker, purger: Purger, keys: set<string>,
                         objects: map<nat, string>, handed: set<nat>, requeued: set<nat>, dropped: set<nat>, uploads: nat)

  datatype Step =
    | Begin(listed: string, key: string)
    | Finish(up: Upload, stopped: bool)
    | RecordOutcome(at: int, sha: string)
    | DecidePurge(of: Whose)
    | LockObject
    | DeleteObject
    | FindLocked(until: int)
    | UnlockObject
    | FailPurge
    | MarkCopy
    | MarkBackup(purged: bool)
    | DeleteBackup
    | Undelete
    | RemoveRecord
    | Retry
    | RequeueDamaged
    | Reencrypt(key: string)

  function CopyOf(s: State): Option<Copy> { if s.rec.None? then None else s.rec.value.copy }

  function CopyAt(s: State, of: Whose): Option<Copy> {
    match of
    case Own => CopyOf(s)
    case Tombstone(j) => if j < |s.graves| then Some(s.graves[j]) else None
  }

  function WithCopy(s: State, c: Copy): State
    requires s.rec.Some?
  {
    s.(rec := Some(s.rec.value.(copy := Some(c))))
  }

  function WithCopyAt(s: State, of: Whose, c: Copy): State
    requires CopyAt(s, of).Some?
  {
    if of.Own? then WithCopy(s, c) else s.(graves := s.graves[of.j := c])
  }

  function WithStatus(s: State, status: BackupStatus): State
    requires s.rec.Some?
  {
    s.(rec := Some(s.rec.value.(status := status)))
  }

  /** attempt goes on to upload: the record is completed and unchanged, and its copy still waits under key. */
  predicate Proceeds(s: State, listed: string, key: string) {
    && s.rec.Some? && s.rec.value.status == Completed && s.rec.value.archive == listed
    && s.rec.value.copy.Some? && Waiting(s.rec.value.copy.value) && s.rec.value.copy.value.key == key
  }

  /** Nobody holds the deletion lock of the object key. */
  predicate Unheld(s: State, key: string) {
    (s.worker.Idle? || s.worker.key != key) && ((s.purger.Locked? || s.purger.Emptied?) ==> s.purger.key != key)
  }

  predicate Enabled(s: State, step: Step) {
    match step
    case Begin(_, key) => s.worker.Idle? && Unheld(s, key)
    case Finish(_, _) => s.worker.Uploading?
    case RecordOutcome(_, _) => s.worker.InHand?
    case DecidePurge(of) => s.purger.Free? && (if of.Own? then s.rec.Some? && s.rec.value.status == DeletedBackup else of.j < |s.graves|)
    case LockObject => s.purger.Decided? && Unheld(s, s.purger.key)
    case DeleteObject => s.purger.Locked?
    case FindLocked(_) => s.purger.Locked?
    case UnlockObject => s.purger.Emptied?
    case FailPurge => s.purger.Decided? || s.purger.Locked?
    case MarkCopy => s.purger.Unlocked?
    case MarkBackup(_) => s.purger.Finishing?
    // both hold the deletion lock of the job
    case DeleteBackup => s.purger.Free? && s.rec.Some? && s.rec.value.status == Completed
    case Undelete => s.purger.Free? && s.rec.Some? && s.rec.value.status == DeletedBackup
    case RemoveRecord => s.rec.Some? && (s.rec.value.copy.Some? ==> !MayExist(s.rec.value.copy.value))
    case Retry => CopyOf(s).Some? && s.rec.value.status == Completed
    case RequeueDamaged => CopyOf(s).Some? && CopyOf(s).value.status == Done
    // the new archive has a key of its own
    case Reencrypt(key) => CopyOf(s).Some? && s.rec.value.status == Completed && key !in s.keys
  }

  /** The objects under a key. */
  function Under(s: State, key: string): set<nat> { set id | id in s.objects && s.objects[id] == key }

  function Settle(cfg: Config, s: State, at: int, sha: string): State
    requires s.worker.InHand?
  {
    var r := SettleBackup(cfg, CopyOf(s), s.worker.key, s.worker.up, at, sha);
    if r.Recorded? && s.rec.Some? then
      WithCopy(s, r.copy).(worker := Idle, dropped := if MayExist(r.copy) then s.dropped else s.dropped + s.requeued * Under(s, s.worker.key))
    else if Removes(r, s.worker.up) && s.worker.up.Ok() then s.(handed := s.handed + {s.worker.id}, worker := Idle)
    else s.(worker := Idle)
  }

  /** The copy after the purge deleted its object, or found it under its Object Lock. */
  function Marked(c: Copy, until: Option<int>): Copy { if until.Some? then c.(retainUntil := until) else c.(status := Purged) }

  function Apply(cfg: Config, s: State, step: Step): State
    requires Enabled(s, step)
  {
    match step
    case Begin(listed, key) => if Proceeds(s, listed, key) then s.(worker := Uploading(key)) else s
    case Finish(up, stopped) =>
      if stopped && !up.Ok() then s.(worker := Idle)
      else s.(worker := InHand(s.worker.key, up, s.uploads), uploads := s.uploads + 1,
              objects := if up.Ok() then s.objects[s.uploads := s.worker.key] else s.objects)
    case RecordOutcome(at, sha) => Settle(cfg, s, at, sha)
    case DecidePurge(of) =>
      var c := CopyAt(s, of);
      if c.Some? && MayExist(c.value) then s.(purger := Decided(of, c.value.key)) else s.(purger := Finishing(of))
    case LockObject => s.(purger := Locked(s.purger.of, s.purger.key))
    case DeleteObject =>
      s.(purger := Emptied(s.purger.of, s.purger.key), objects := map id | id in s.objects && s.objects[id] != s.purger.key :: s.objects[id])
    case FindLocked(until) => s.(purger := Unlocked(s.purger.of, s.purger.key, Some(until)))
    case UnlockObject => s.(purger := Unlocked(s.purger.of, s.purger.key, None))
    case FailPurge => s.(purger := Free)
    case MarkCopy =>
      var of, c := s.purger.of, CopyAt(s, s.purger.of);
      var s' := s.(purger := if s.purger.until.Some? then Free else Finishing(of));
      if c.Some? then WithCopyAt(s', of, Marked(c.value, s.purger.until)) else s'
    case MarkBackup(purged) =>
      var s' := s.(purger := Free);
      if purged && s.purger.of.Own? && s.rec.Some? then WithStatus(s', PurgedBackup) else s'
    case DeleteBackup => WithStatus(s, DeletedBackup)
    case Undelete => WithStatus(s, Completed)
    case RemoveRecord => s.(rec := None)
    case Retry =>
      var c := CopyOf(s).value;
      if c.status == Failed then WithCopy(s, c.(status := Pending, attempts := 0, nextAttempt := None)) else s
    case RequeueDamaged =>
      var c := CopyOf(s).value;
      WithCopy(s, c.(status := Pending, checked := false, attempts := 0, nextAttempt := None)).(requeued := s.requeued + Under(s, c.key))
    case Reencrypt(key) =>
      // the old copy goes to a tombstone, which the purge removes, and a new one is planned
      var c := CopyOf(s).value;
      s.(graves := s.graves + [c], keys := s.keys + {key},
         rec := Some(Record(s.rec.value.status, key, Some(if c.status == Purged then c else Planned(c.target, key)))))
  }

  ghost predicate Runs(cfg: Config, s: State, steps: seq<Step>, s': State)
    decreases |steps|
  {
    if steps == [] then s == s' else Enabled(s, steps[0]) && Runs(cfg, Apply(cfg, s, steps[0]), steps[1..], s')
  }

  /** A completed backup with a planned copy. */
  ghost predicate Init(s: State) {
    && s.rec.Some? && s.rec.value.copy.Some? && s.rec.value.copy == Some(Planned(s.rec.value.copy.value.target, s.rec.value.archive))
    && s.rec.value.status == Completed && s.keys == {s.rec.value.archive}
    && s.worker == Idle && s.purger == Free && s.objects == map[] && s.graves == []
    && s.handed == s.requeued == s.dropped == {} && s.uploads == 0
  }

  // ---- The attempts of a waiting copy ----

  ghost predicate AttemptsInv(cfg: Config, s: State) {
    CopyOf(s).Some? ==>
      var c := CopyOf(s).value;
      && c.attempts <= cfg.maxAttempts
      && (Waiting(c) ==> c.attempts < cfg.maxAttempts)
  }

  /** An attempt on the backup's copy is on its way. */
  predicate OnItsWay(s: State) {
    !s.worker.Idle? && CopyOf(s).Some? && CopyOf(s).value.key == s.worker.key && CopyOf(s).value.status != Purged
  }

  /** The worker that holds the lock of the copy's object found it waiting, and it still is. */
  ghost predicate WaitingInv(s: State) { OnItsWay(s) ==> Waiting(CopyOf(s).value) }

  /** Keys are never used again: a tombstone shares its key with the backup's own copy only when that is purged. */
  ghost predicate KeysInv(s: State) {
    && (CopyOf(s).Some? ==> CopyOf(s).value.key in s.keys)
    && (forall j :: 0 <= j < |s.graves| ==> s.graves[j].key in s.keys)
    && (CopyOf(s).Some? && CopyOf(s).value.status != Purged ==> forall j :: 0 <= j < |s.graves| ==> s.graves[j].key != CopyOf(s).value.key)
    && (!s.worker.Idle? ==> s.worker.key in s.keys)
  }

  predicate WithKey(p: Purger) { p.Decided? || p.Locked? || p.Emptied? || p.Unlocked? }

  /** The purge works on a deleted backup or a tombstone, under the key of its copy. */
  ghost predicate PurgeInv(s: State) {
    && (!s.purger.Free? && s.purger.of.Own? && s.rec.Some? ==> s.rec.value.status == DeletedBackup)
    && (!s.purger.Free? && s.purger.of.Tombstone? ==> s.purger.of.j < |s.graves|)
    && (WithKey(s.purger) ==> s.purger.key in s.keys && (CopyAt(s, s.purger.of).Some? ==> CopyAt(s, s.purger.of).value.key == s.purger.key))
  }

  /** The worker never works on an object from its deletion to the mark on its copy. */
  ghost predicate LockInv(s: State) {
    !s.worker.Idle? && (s.purger.Locked? || s.purger.Emptied? || s.purger.Unlocked?) ==> s.worker.key != s.purger.key
  }

  ghost predicate Inv(cfg: Config, s: State) { AttemptsInv(cfg, s) && WaitingInv(s) && KeysInv(s) && PurgeInv(s) && LockInv(s) }

  predicate OfWorker(step: Step) { step.Begin? || step.Finish? || step.RecordOutcome? }

  predicate OfPurge(step: Step) {
    || step.DecidePurge? || step.LockObject? || step.DeleteObject? || step.FindLocked? || step.UnlockObject? || step.FailPurge?
    || step.MarkCopy? || step.MarkBackup?
  }

  lemma AttemptsKept(cfg: Config, s: State, step: Step)
    requires cfg.Valid() && Inv(cfg, s) && Enabled(s, step)
    ensures AttemptsInv(cfg, Apply(cfg, s, step)) && WaitingInv(Apply(cfg, s, step))
  {
    if step.RecordOutcome? && CopyOf(s).Some? { AttemptRecorded(cfg, CopyOf(s).value, s.worker.up, step.at, step.sha); }
  }

  lemma WorkerKeepsKeys(cfg: Config, s: State, step: Step)
    requires cfg.Valid() && Inv(cfg, s) && Enabled(s, step) && OfWorker(step)
    ensures KeysInv(Apply(cfg, s, step))
  {
    if step.RecordOutcome? && CopyOf(s).Some? { AttemptRecorded(cfg, CopyOf(s).value, s.worker.up, step.at, step.sha); }
  }

  lemma OthersKeepKeys(cfg: Config, s: State, step: Step)
    requires Inv(cfg, s) && Enabled(s, step) && !OfWorker(step)
    ensures KeysInv(Apply(cfg, s, step))
  {
  }

  lemma WorkerKeepsPurge(cfg: Config, s: State, step: Step)
    requires cfg.Valid() && Inv(cfg, s) && Enabled(s, step) && OfWorker(step)
    ensures PurgeInv(Apply(cfg, s, step)) && LockInv(Apply(cfg, s, step))
  {
    if step.RecordOutcome? && CopyOf(s).Some? { AttemptRecorded(cfg, CopyOf(s).value, s.worker.up, step.at, step.sha); }
  }

  lemma OthersKeepPurge(cfg: Config, s: State, step: Step)
    requires cfg.Valid() && Inv(cfg, s) && Enabled(s, step) && !OfWorker(step)
    ensures PurgeInv(Apply(cfg, s, step)) && LockInv(Apply(cfg, s, step))
  {
  }

  lemma InvStep(cfg: Config, s: State, step: Step)
    requires cfg.Valid() && Inv(cfg, s) && Enabled(s, step)
    ensures Inv(cfg, Apply(cfg, s, step))
  {
    AttemptsKept(cfg, s, step);
    if OfWorker(step) {
      WorkerKeepsKeys(cfg, s, step);
      WorkerKeepsPurge(cfg, s, step);
    } else {
      OthersKeepKeys(cfg, s, step);
      OthersKeepPurge(cfg, s, step);
    }
  }

  lemma {:induction false} RunsInv(cfg: Config, s: State, steps: seq<Step>, s': State)
    requires cfg.Valid() && Inv(cfg, s) && Runs(cfg, s, steps, s')
    ensures Inv(cfg, s')
    decreases |steps|
  {
    if steps != [] {
      InvStep(cfg, s, steps[0]);
      RunsInv(cfg, Apply(cfg, s, steps[0]), steps[1..], s');
    }
  }

  /** In every run a waiting copy has fewer than MaxAttempts recorded attempts. */
  lemma WaitingBelowMaximum(cfg: Config, s0: State, steps: seq<Step>, s: State)
    requires cfg.Valid() && Init(s0) && Runs(cfg, s0, steps, s) && CopyOf(s).Some? && Waiting(CopyOf(s).value)
    ensures CopyOf(s).value.attempts < cfg.maxAttempts
  {
    RunsInv(cfg, s0, steps, s);
  }

  predicate Resets(step: Step) { step.Retry? || step.RequeueDamaged? || step.Reencrypt? }

  /** The attempt is recorded on the copy. */
  predicate Counted(cfg: Config, s: State, step: Step)
    requires Enabled(s, step)
  {
    step.RecordOutcome? && SettleBackup(cfg, CopyOf(s), s.worker.key, s.worker.up, step.at, step.sha).Recorded?
  }

  ghost function AttemptsMade(cfg: Config, s: State, steps: seq<Step>, s': State): nat
    requires Runs(cfg, s, steps, s')
    decreases |steps|
  {
    if steps == [] then 0
    else (if Counted(cfg, s, steps[0]) then 1 else 0) + AttemptsMade(cfg, Apply(cfg, s, steps[0]), steps[1..], s')
  }

  function Left(cfg: Config, s: State): int { if CopyOf(s).None? then 0 else cfg.maxAttempts - CopyOf(s).value.attempts }

  lemma LeftStep(cfg: Config, s: State, step: Step)
    requires cfg.Valid() && Inv(cfg, s) && Enabled(s, step) && !Resets(step)
    ensures Left(cfg, Apply(cfg, s, step)) + (if Counted(cfg, s, step) then 1 else 0) <= Left(cfg, s)
  {
    if step.RecordOutcome? && CopyOf(s).Some? { AttemptRecorded(cfg, CopyOf(s).value, s.worker.up, step.at, step.sha); }
  }

  /** The queue does not retry forever: without a reset it records at most MaxAttempts attempts of a copy. */
  lemma {:induction false} NoEndlessRetry(cfg: Config, s: State, steps: seq<Step>, s': State)
    requires cfg.Valid() && Inv(cfg, s) && Runs(cfg, s, steps, s') && forall i :: 0 <= i < |steps| ==> !Resets(steps[i])
    ensures AttemptsMade(cfg, s, steps, s') + Left(cfg, s') <= Left(cfg, s) <= cfg.maxAttempts
    ensures AttemptsMade(cfg, s, steps, s') <= cfg.maxAttempts
    decreases |steps|
  {
    RunsInv(cfg, s, steps, s');
    if steps == [] {
      assert AttemptsMade(cfg, s, steps, s') == 0;
    } else {
      var s1 := Apply(cfg, s, steps[0]);
      LeftStep(cfg, s, steps[0]);
      InvStep(cfg, s, steps[0]);
      NoEndlessRetry(cfg, s1, steps[1..], s');
    }
  }

  // ---- No object is lost ----

  /** A copy of the backup or of a tombstone is done under key. */
  ghost predicate HeldDone(s: State, key: string) {
    || (CopyOf(s).Some? && CopyOf(s).value.status == Done && CopyOf(s).value.key == key)
    || exists j :: 0 <= j < |s.graves| && s.graves[j].status == Done && s.graves[j].key == key
  }

  /** A copy of the backup or of a tombstone says that an object may exist under key. */
  ghost predicate Tracked(s: State, key: string) {
    || (CopyOf(s).Some? && MayExist(CopyOf(s).value) && CopyOf(s).value.key == key)
    || exists j :: 0 <= j < |s.graves| && MayExist(s.graves[j]) && s.graves[j].key == key
  }

  /** The attempt that made the object is about to record it. */
  predicate JustMade(s: State, id: nat) { s.worker.InHand? && s.worker.id == id && s.worker.up.Ok() }

  /** The object of a successful upload is known to someone. */
  ghost predicate Known(s: State, id: nat)
    requires id in s.objects
  {
    id in s.handed || JustMade(s, id) || HeldDone(s, s.objects[id])
  }

  /** ... or its copy was queued again as damaged, and tracks it still, unless an attempt that stored nothing dropped it. */
  ghost predicate Accounted(s: State, id: nat)
    requires id in s.objects
  {
    Known(s, id) || (id in s.requeued && (Tracked(s, s.objects[id]) || id in s.dropped))
  }

  ghost predicate ObjectsInv(s: State) {
    && (forall id :: id in s.objects ==> id < s.uploads && Accounted(s, id))
    && (s.worker.InHand? ==> s.worker.id < s.uploads && (s.worker.id in s.objects ==> s.objects[s.worker.id] == s.worker.key))
    && (s.purger.Emptied? || (s.purger.Unlocked? && s.purger.until.None?) ==> forall id :: id in Under(s, s.purger.key) ==> id in s.handed)
  }

  lemma WorkerAccounts(cfg: Config, s: State, step: Step, id: nat)
    requires Inv(cfg, s) && ObjectsInv(s) && Enabled(s, step) && (step.Begin? || step.Finish?) && id in Apply(cfg, s, step).objects
    ensures Accounted(Apply(cfg, s, step), id)
  {
    if id in s.objects { assert Accounted(s, id); }
  }

  lemma SettleAccounts(cfg: Config, s: State, at: int, sha: string, id: nat)
    requires Inv(cfg, s) && ObjectsInv(s) && s.worker.InHand? && id in s.objects
    ensures id in Settle(cfg, s, at, sha).objects && Accounted(Settle(cfg, s, at, sha), id)
  {
    assert Accounted(s, id);
    if JustMade(s, id) { BackupUploadAccounted(cfg, CopyOf(s), s.worker.key, s.worker.up, at, sha); }
  }

  lemma PurgeAccounts(cfg: Config, s: State, step: Step, id: nat)
    requires Inv(cfg, s) && ObjectsInv(s) && Enabled(s, step) && OfPurge(step) && id in Apply(cfg, s, step).objects
    ensures id in s.objects && Accounted(Apply(cfg, s, step), id)
  {
    assert Accounted(s, id);
    if step.MarkCopy? { MarkAccounts(cfg, s, step, id); }
  }

  lemma MarkAccounts(cfg: Config, s: State, step: Step, id: nat)
    requires Inv(cfg, s) && ObjectsInv(s) && Enabled(s, step) && step.MarkCopy? && id in s.objects
    ensures Accounted(Apply(cfg, s, step), id)
  {
    var s', of, key := Apply(cfg, s, step), s.purger.of, s.objects[id];
    assert Accounted(s, id);
    if id !in s.handed && CopyAt(s, of).Some? {
      assert key != s.purger.key || s.purger.until.Some? by { assert id in Under(s, key); }
      forall j | 0 <= j < |s.graves| && s.graves[j].key == key
        ensures s'.graves[j].key == key && (MayExist(s.graves[j]) ==> MayExist(s'.graves[j])) && s'.graves[j].status == s.graves[j].status
      {
      }
    }
  }

  lemma RecordAccounts(cfg: Config, s: State, step: Step, id: nat)
    requires Inv(cfg, s) && ObjectsInv(s) && Enabled(s, step) && !OfPurge(step) && !OfWorker(step) && id in s.objects
    ensures Accounted(Apply(cfg, s, step), id)
  {
    var s' := Apply(cfg, s, step);
    assert Accounted(s, id);
    if step.Reencrypt? {
      assert s'.graves[|s.graves|] == CopyOf(s).value;
      assert forall j :: 0 <= j < |s.graves| ==> s'.graves[j] == s.graves[j];
    }
  }

  lemma ObjectsStep(cfg: Config, s: State, step: Step)
    requires cfg.Valid() && Inv(cfg, s) && ObjectsInv(s) && Enabled(s, step)
    ensures ObjectsInv(Apply(cfg, s, step))
  {
    var s' := Apply(cfg, s, step);
    forall id | id in s'.objects
      ensures Accounted(s', id)
    {
      if step.RecordOutcome? {
        SettleAccounts(cfg, s, step.at, step.sha, id);
      } else if OfWorker(step) {
        WorkerAccounts(cfg, s, step, id);
      } else if OfPurge(step) {
        PurgeAccounts(cfg, s, step, id);
      } else {
        RecordAccounts(cfg, s, step, id);
      }
    }
  }

  lemma {:induction false} RunsObjects(cfg: Config, s: State, steps: seq<Step>, s': State)
    requires cfg.Valid() && Inv(cfg, s) && ObjectsInv(s) && Runs(cfg, s, steps, s')
    ensures ObjectsInv(s')
    decreases |steps|
  {
    if steps != [] {
      InvStep(cfg, s, steps[0]);
      ObjectsStep(cfg, s, steps[0]);
      RunsObjects(cfg, Apply(cfg, s, steps[0]), steps[1..], s');
    }
  }

  lemma {:induction false} NothingRequeued(cfg: Config, s: State, steps: seq<Step>, s': State)
    requires Runs(cfg, s, steps, s') && s.requeued == {} && forall i :: 0 <= i < |steps| ==> !steps[i].RequeueDamaged?
    ensures s'.requeued == {}
    decreases |steps|
  {
    if steps != [] { NothingRequeued(cfg, Apply(cfg, s, steps[0]), steps[1..], s'); }
  }

  /** A backup that just completed, with its copy planned. */
  function Fresh(target: string, key: string): State {
    State(Some(Record(Completed, key, Some(Planned(target, key)))), [], Idle, Free, {key}, map[], {}, {}, {}, 0)
  }

  /** Runs start somewhere: a fresh backup is an initial state, and keeps every invariant. */
  lemma FreshHolds(cfg: Config, target: string, key: string)
    requires cfg.Valid()
    ensures Init(Fresh(target, key)) && Inv(cfg, Fresh(target, key)) && ObjectsInv(Fresh(target, key))
  {
  }

  /**
   * No object is lost: in every run of attempts, deletions, undeletions, purges, removals, retries
   * and re-encryptions, the object of each successful upload is recorded as done on the backup or
   * on a tombstone, handed to removal, about to be recorded by the attempt that made it, or was
   * deleted by a purge. With copies queued again as damaged as well, an object that is none of
   * these was held by such a copy, and is still tracked unless an attempt dropped it.
   */
  lemma NoObjectLost(cfg: Config, s0: State, steps: seq<Step>, s: State, id: nat)
    requires cfg.Valid() && Init(s0) && Runs(cfg, s0, steps, s) && id in s.objects
    ensures Accounted(s, id)
    ensures (forall i :: 0 <= i < |steps| ==> !steps[i].RequeueDamaged?) ==> Known(s, id)
    ensures Known(s, id) && s.worker.Idle? && id !in s.handed ==> Tracked(s, s.objects[id])
  {
    RunsObjects(cfg, s0, steps, s);
    if forall i :: 0 <= i < |steps| ==> !steps[i].RequeueDamaged? { NothingRequeued(cfg, s0, steps, s); }
  }

  /**
   * An object is dropped exactly by a recorded attempt that stored nothing, on a copy that holds it
   * under its key, was queued again as damaged, and is noted neither as written nor as locked.
   */
  lemma DroppedExactlyBy(cfg: Config, s: State, step: Step, id: nat)
    requires Inv(cfg, s) && Enabled(s, step) && id !in s.dropped
    ensures id in Apply(cfg, s, step).dropped <==>
            && step.RecordOutcome? && !s.worker.up.Stored() && OnItsWay(s) && !CopyOf(s).value.written && CopyOf(s).value.retainUntil.None?
            && id in s.requeued && id in Under(s, s.worker.key)
  {
    if step.RecordOutcome? && OnItsWay(s) { TrackingKept(cfg, CopyOf(s).value, s.worker.up, step.at, step.sha); }
  }

  /** An object is noted as queued again only when its done copy is found damaged. */
  lemma RequeuedOnlyBy(cfg: Config, s: State, step: Step, id: nat)
    requires Enabled(s, step) && id in Apply(cfg, s, step).requeued && id !in s.requeued
    ensures step.RequeueDamaged? && id in s.objects && HeldDone(s, s.objects[id])
  {
  }

  // ---- Runs that fail ----

  lemma Prepended(cfg: Config, s: State, step: Step, steps: seq<Step>, s': State)
    requires Enabled(s, step) && Runs(cfg, Apply(cfg, s, step), steps, s')
    ensures Runs(cfg, s, [step] + steps, s')
  {
    assert ([step] + steps)[1..] == steps;
  }

  lemma {:induction false} Joined(cfg: Config, s: State, a: seq<Step>, s1: State, b: seq<Step>, s2: State)
    requires Runs(cfg, s, a, s1) && Runs(cfg, s1, b, s2)
    ensures Runs(cfg, s, a + b, s2)
    decreases |a|
  {
    if a == [] {
      assert a + b == b;
    } else {
      Joined(cfg, Apply(cfg, s, a[0]), a[1..], s1, b, s2);
      assert (a + b)[1..] == a[1..] + b;
    }
  }

  /** An attempt from its start to its record. */
  function Attempt(key: string, up: Upload, at: int, sha: string): seq<Step> {
    [Begin(key, key)] + [Finish(up, false)] + [RecordOutcome(at, sha)]
  }

  lemma AttemptRuns(cfg: Config, s: State, key: string, up: Upload, at: int, sha: string) returns (s': State)
    requires s.worker.Idle? && s.purger.Free? && Proceeds(s, key, key)
    ensures Runs(cfg, s, Attempt(key, up, at, sha), s')
    ensures var s1 := s.(worker := InHand(key, up, s.uploads), uploads := s.uploads + 1,
                         objects := if up.Ok() then s.objects[s.uploads := key] else s.objects);
            s' == Settle(cfg, s1, at, sha)
  {
    var s1 := Apply(cfg, s, Begin(key, key));
    var s2 := Apply(cfg, s1, Finish(up, false));
    s' := Apply(cfg, s2, RecordOutcome(at, sha));
    Prepended(cfg, s2, RecordOutcome(at, sha), [], s');
    Prepended(cfg, s1, Finish(up, false), [RecordOutcome(at, sha)], s');
    Prepended(cfg, s, Begin(key, key), [Finish(up, false)] + [RecordOutcome(at, sha)], s');
    assert [RecordOutcome(at, sha)] + [] == [RecordOutcome(at, sha)];
    assert Attempt(key, up, at, sha) == [Begin(key, key)] + ([Finish(up, false)] + [RecordOutcome(at, sha)]);
  }

  lemma FirstAttempt(cfg: Config, target: string, key: string, up: Upload, at: int, sha: string) returns (s: State)
    requires cfg.Valid() && up.Ok()
    ensures Runs(cfg, Fresh(target, key), Attempt(key, up, at, sha), s)
    ensures s == Fresh(target, key).(rec := Some(Record(Completed, key, Some(Succeed(Planned(target, key).(attempts := 1), up.obj, at, sha)))),
                                     objects := map[0 := key], uploads := 1)
  {
    s := AttemptRuns(cfg, Fresh(target, key), key, up, at, sha);
  }

  lemma ForgottenBy(cfg: Config, s: State, key: string, msg: string, at: int, sha: string, id: nat) returns (s': State)
    requires s.worker.Idle? && s.purger.Free? && Proceeds(s, key, key) && s.graves == [] && !CopyOf(s).value.written && CopyOf(s).value.retainUntil.None?
    requires id in s.objects && s.objects[id] == key && id in s.requeued && id !in s.handed
    ensures Runs(cfg, s, Attempt(key, Upload(Some(msg), None), at, sha), s')
    ensures s'.objects == s.objects && !Known(s', id) && !Tracked(s', key) && id in s'.dropped
  {
    s' := AttemptRuns(cfg, s, key, Upload(Some(msg), None), at, sha);
  }

  /**
   * A copy is made, found damaged and queued again, and the next attempt stores nothing: its
   * object is there, but nobody knows of it any more.
   */
  lemma RequeuedObjectForgotten(cfg: Config, target: string, key: string, up: Upload, msg: string, at: int, sha: string) returns (s: State)
    requires cfg.Valid() && up.Ok() && (up.obj.Some? ==> up.obj.value.retainUntil.None?)
    ensures Init(Fresh(target, key))
    ensures Runs(cfg, Fresh(target, key), Attempt(key, up, at, sha) + ([RequeueDamaged] + Attempt(key, Upload(Some(msg), None), at, sha)), s)
    ensures 0 in s.objects && s.objects[0] == key && !Known(s, 0) && !Tracked(s, key) && 0 in s.dropped
  {
    var failed := Upload(Some(msg), None);
    FreshHolds(cfg, target, key);
    var s1 := FirstAttempt(cfg, target, key, up, at, sha);
    var s2 := Apply(cfg, s1, RequeueDamaged);
    s := ForgottenBy(cfg, s2, key, msg, at, sha, 0);
    Prepended(cfg, s1, RequeueDamaged, Attempt(key, failed, at, sha), s);
    Joined(cfg, Fresh(target, key), Attempt(key, up, at, sha), s1, [RequeueDamaged] + Attempt(key, failed, at, sha), s);
  }

  // ---- Copies the purge passed over ----

  /** The purge of the backup is past its copies, or over. */
  predicate PastCopies(s: State) { s.rec.Some? && (s.rec.value.status == PurgedBackup || s.purger == Finishing(Own)) }

  /** ... and its copy may have an object, which this purge does not delete. */
  predicate PassedOver(s: State) { PastCopies(s) && CopyOf(s).Some? && MayExist(CopyOf(s).value) }

  /** A purge passes over an object at exactly one step: an attempt is recorded that stored one for a failed copy without any. */
  lemma PassedOverStep(cfg: Config, s: State, step: Step)
    requires cfg.Valid() && Inv(cfg, s) && Enabled(s, step) && !PassedOver(s)
    ensures PassedOver(Apply(cfg, s, step)) <==>
            step.RecordOutcome? && s.worker.up.Stored() && PastCopies(s) && OnItsWay(s) && CopyOf(s).value.status == Failed && !MayExist(CopyOf(s).value)
  {
    if step.RecordOutcome? && CopyOf(s).Some? { TrackingKept(cfg, CopyOf(s).value, s.worker.up, step.at, step.sha); }
  }

  /** The attempt on its way has stored an object, or may still do so. */
  predicate MayStore(s: State) { OnItsWay(s) && (s.worker.InHand? ==> s.worker.up.Stored()) }

  /** The purge finds the copy without an object while an attempt on it may bring one. */
  predicate TooEarly(s: State, step: Step) { step == DecidePurge(Own) && MayStore(s) && !MayExist(CopyOf(s).value) }

  ghost predicate NeverTooEarly(cfg: Config, s: State, steps: seq<Step>, s': State)
    requires Runs(cfg, s, steps, s')
    decreases |steps|
  {
    steps != [] ==> !TooEarly(s, steps[0]) && NeverTooEarly(cfg, Apply(cfg, s, steps[0]), steps[1..], s')
  }

  ghost predicate PurgeSafe(s: State) { !PassedOver(s) && (PastCopies(s) ==> !MayStore(s)) }

  lemma PurgeSafeStep(cfg: Config, s: State, step: Step)
    requires cfg.Valid() && Inv(cfg, s) && PurgeSafe(s) && Enabled(s, step) && !TooEarly(s, step)
    ensures PurgeSafe(Apply(cfg, s, step))
  {
    PassedOverStep(cfg, s, step);
  }

  lemma {:induction false} RunsPurgeSafe(cfg: Config, s: State, steps: seq<Step>, s': State)
    requires cfg.Valid() && Inv(cfg, s) && PurgeSafe(s) && Runs(cfg, s, steps, s') && NeverTooEarly(cfg, s, steps, s')
    ensures PurgeSafe(s')
    decreases |steps|
  {
    if steps != [] {
      PurgeSafeStep(cfg, s, steps[0]);
      InvStep(cfg, s, steps[0]);
      RunsPurgeSafe(cfg, Apply(cfg, s, steps[0]), steps[1..], s');
    }
  }

  /** In every run whose purges never look too early, no purge passes over an object. */
  lemma PurgeLeavesNothing(cfg: Config, s0: State, steps: seq<Step>, s: State)
    requires cfg.Valid() && Init(s0) && Runs(cfg, s0, steps, s) && NeverTooEarly(cfg, s0, steps, s)
    ensures !PassedOver(s)
  {
    RunsPurgeSafe(cfg, s0, steps, s);
  }

  /** From s on, before its backup is purged once more, an object can be left behind on a purged backup. */
  ghost predicate CanBeLeft(cfg: Config, s: State) {
    exists steps: seq<Step>, s': State ::
      Runs(cfg, s, steps, s') && DecidePurge(Own) !in steps && PassedOver(s') && s'.rec.value.status == PurgedBackup
  }

  lemma {:induction false} UndecidedNeverTooEarly(cfg: Config, s: State, steps: seq<Step>, s': State)
    requires Runs(cfg, s, steps, s') && DecidePurge(Own) !in steps
    ensures NeverTooEarly(cfg, s, steps, s')
    decreases |steps|
  {
    if steps != [] { UndecidedNeverTooEarly(cfg, Apply(cfg, s, steps[0]), steps[1..], s'); }
  }

  /** What a purge that looked too early leaves, once the attempt is recorded. */
  lemma TooEarlyRuns(cfg: Config, s: State, up: Upload, at: int, sha: string) returns (steps: seq<Step>, s': State)
    requires cfg.Valid() && Inv(cfg, s) && Enabled(s, DecidePurge(Own)) && TooEarly(s, DecidePurge(Own)) && up.Ok()
    ensures Runs(cfg, Apply(cfg, s, DecidePurge(Own)), steps, s') && DecidePurge(Own) !in steps
    ensures PassedOver(s') && s'.rec.value.status == PurgedBackup && (s.worker.Uploading? ==> CopyOf(s').value.status == Done)
  {
    var s1 := Apply(cfg, s, DecidePurge(Own));
    var s2 := Apply(cfg, s1, MarkBackup(true));
    var s3 := if s2.worker.Uploading? then Apply(cfg, s2, Finish(up, false)) else s2;
    s' := Apply(cfg, s3, RecordOutcome(at, sha));
    TrackingKept(cfg, CopyOf(s3).value, s3.worker.up, at, sha);
    steps := [RecordOutcome(at, sha)];
    Prepended(cfg, s3, RecordOutcome(at, sha), [], s');
    assert steps + [] == steps;
    if s2.worker.Uploading? {
      Prepended(cfg, s2, Finish(up, false), steps, s');
      steps := [Finish(up, false)] + steps;
    }
    Prepended(cfg, s1, MarkBackup(true), steps, s');
    steps := [MarkBackup(true)] + steps;
  }

  /**
   * Whenever a backup is purged, an object can be left behind if and only if its copy is not known
   * to have one at that time although an attempt on it has stored one or may still do so.
   */
  lemma LeftExactlyIf(cfg: Config, s: State)
    requires cfg.Valid() && Inv(cfg, s) && Enabled(s, DecidePurge(Own))
    ensures CanBeLeft(cfg, Apply(cfg, s, DecidePurge(Own))) <==> TooEarly(s, DecidePurge(Own))
  {
    var s1 := Apply(cfg, s, DecidePurge(Own));
    InvStep(cfg, s, DecidePurge(Own));
    if TooEarly(s, DecidePurge(Own)) {
      var steps, s' := TooEarlyRuns(cfg, s, Upload(None, None), 0, "");
    } else {
      PurgeSafeStep(cfg, s, DecidePurge(Own));
      forall steps: seq<Step>, s': State | Runs(cfg, s1, steps, s') && DecidePurge(Own) !in steps
        ensures !PassedOver(s')
      {
        UndecidedNeverTooEarly(cfg, s1, steps, s');
        RunsPurgeSafe(cfg, s1, steps, s');
      }
    }
  }

  /** A backup deleted while its copy, which failed once, is uploaded again. */
  lemma DeletedWhileRetrying(cfg: Config, target: string, key: string, msg: string, at: int, sha: string) returns (s: State)
    requires cfg.Valid() && cfg.maxAttempts > 1
    ensures Runs(cfg, Fresh(target, key), Attempt(key, Upload(Some(msg), None), at, sha) + ([Begin(key, key)] + [DeleteBackup]), s)
    ensures Enabled(s, DecidePurge(Own)) && TooEarly(s, DecidePurge(Own)) && s.worker.Uploading?
  {
    var failed := Upload(Some(msg), None);
    var s1 := AttemptRuns(cfg, Fresh(target, key), key, failed, at, sha);
    var s2 := Apply(cfg, s1, Begin(key, key));
    s := Apply(cfg, s2, DeleteBackup);
    Prepended(cfg, s2, DeleteBackup, [], s);
    assert [DeleteBackup] + [] == [DeleteBackup];
    Prepended(cfg, s1, Begin(key, key), [DeleteBackup], s);
    Joined(cfg, Fresh(target, key), Attempt(key, failed, at, sha), s1, [Begin(key, key)] + [DeleteBackup], s);
  }

  /**
   * A fresh backup whose first attempt fails; the second uploads while the backup is deleted and,
   * its grace period over, purged: the copy is recorded as done on a purged backup.
   */
  lemma PassedOverExample(cfg: Config, target: string, key: string, msg: string, up: Upload, at: int, sha: string)
      returns (steps: seq<Step>, s: State)
    requires cfg.Valid() && cfg.maxAttempts > 1 && up.Ok()
    ensures Init(Fresh(target, key)) && Runs(cfg, Fresh(target, key), steps, s)
    ensures Attempt(key, Upload(Some(msg), None), at, sha) + ([Begin(key, key)] + [DeleteBackup]) + [DecidePurge(Own)] <= steps
    ensures PassedOver(s) && s.rec.value.status == PurgedBackup && CopyOf(s).value.status == Done
  {
    var before := Attempt(key, Upload(Some(msg), None), at, sha) + ([Begin(key, key)] + [DeleteBackup]);
    FreshHolds(cfg, target, key);
    var s1 := DeletedWhileRetrying(cfg, target, key, msg, at, sha);
    RunsInv(cfg, Fresh(target, key), before, s1);
    steps, s := TooEarlyRuns(cfg, s1, up, at, sha);
    Prepended(cfg, s1, DecidePurge(Own), steps, s);
    Joined(cfg, Fresh(target, key), before, s1, [DecidePurge(Own)] + steps, s);
    steps := before + ([DecidePurge(Own)] + steps);
  }
}
