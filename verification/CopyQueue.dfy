// The copies of a backup and one attempt to make one (internal/copies/queue.go,
// internal/copies/chunks.go, internal/models/copy.go). Times are nanoseconds.
module CopyQueue {
  import opened Decimal
  import opened Numbers

  datatype Status = Pending | Done | Failed | Purged

  /** An object stored on a copy target. */
  datatype Object = Object(version: string, retainUntil: Option<int>)

  datatype Copy = Copy(target: string, key: string, status: Status, checked: bool, sha: string, version: string, retainUntil: Option<int>,
                       error: string, written: bool, copiedAt: Option<int>, attempts: nat, nextAttempt: Option<int>)

  /** The settings of the queue; New makes every one of them positive. */
  datatype Config = Config(maxAttempts: nat, baseBackoff: nat, maxBackoff: nat) {
    predicate Valid() { maxAttempts > 0 && baseBackoff > 0 && maxBackoff > 0 }
  }

  /** A copy as PlanCopies queues it. */
  function Planned(target: string, key: string): Copy { Copy(target, key, Pending, false, "", "", None, "", false, None, 0, None) }

  predicate Waiting(c: Copy) { c.status == Pending || (c.status == Failed && c.nextAttempt.Some?) }

  predicate Due(c: Copy, now: int) {
    match c.status
    case Pending => c.nextAttempt.None? || now >= c.nextAttempt.value
    case Failed => c.nextAttempt.Some? && now >= c.nextAttempt.value
    case _ => false
  }

  /** A copy is waiting exactly when there is a time at which it is due. */
  lemma WaitingMeansDueSometime(c: Copy)
    ensures Waiting(c) <==> exists now: int :: Due(c, now)
    ensures forall now: int, later: int :: Due(c, now) && now <= later ==> Due(c, later)
  {
    if Waiting(c) { assert Due(c, if c.nextAttempt.Some? then c.nextAttempt.value else 0); }
  }

  predicate MayExist(c: Copy) {
    match c.status
    case Done => true
    case Pending => true
    case Purged => false
    case Failed => c.retainUntil.Some? || c.written
  }

  function WithObject(c: Copy, obj: Option<Object>): Copy {
    if obj.None? then c
    else c.(version := obj.value.version, retainUntil := if obj.value.retainUntil.Some? then obj.value.retainUntil else c.retainUntil)
  }

  function Succeed(c: Copy, obj: Option<Object>, at: int, sha: string): Copy {
    WithObject(c.(status := Done, checked := true, sha := sha, error := "", nextAttempt := None, written := false, copiedAt := Some(at)), obj)
  }

  function RecordFailure(c: Copy, msg: string, obj: Option<Object>): Copy {
    var f := c.(status := Failed, checked := false, error := msg);
    if obj.None? then f else WithObject(f.(written := true), obj)
  }

  // ---- backoff ----

  /** min(Base·2^(n-1), Max) for the n-th failed attempt, and min(Base, Max) before the first. */
  function Wait(cfg: Config, n: nat): nat { Min(cfg.baseBackoff * Pow2(if n == 0 then 0 else n - 1), cfg.maxBackoff) }

  lemma DoublingGrows(base: nat, n: nat)
    ensures base * Pow2(n) <= base * Pow2(n + 1) == 2 * (base * Pow2(n))
  {
  }

  lemma BeyondMax(base: nat, n: nat, m: nat)
    requires n <= m
    ensures base * Pow2(n) <= base * Pow2(m)
  {
    Pow2Grows(n, m);
  }

  /** backoff: it stops doubling once the maximum is reached. */
  method Backoff(cfg: Config, attempts: nat) returns (d: nat)
    ensures d == Wait(cfg, attempts)
  {
    d := cfg.baseBackoff;
    var i := 1;
    while i < attempts && d < cfg.maxBackoff
      invariant 1 <= i && (i <= attempts || i == 1)
      invariant d == cfg.baseBackoff * Pow2(i - 1)
    {
      DoublingGrows(cfg.baseBackoff, i - 1);
      d := d * 2;
      i := i + 1;
    }
    if i < attempts { BeyondMax(cfg.baseBackoff, i - 1, attempts - 1); }
    d := Min(d, cfg.maxBackoff);
  }

  /** The wait never decreases with the attempts, stays within the maximum and is positive. */
  lemma BackoffMonotone(cfg: Config, n: nat, m: nat)
    requires cfg.Valid() && n <= m
    ensures 0 < Wait(cfg, n) <= Wait(cfg, m) <= cfg.maxBackoff
  {
    BeyondMax(cfg.baseBackoff, 0, if n == 0 then 0 else n - 1);
    BeyondMax(cfg.baseBackoff, if n == 0 then 0 else n - 1, if m == 0 then 0 else m - 1);
  }

  // ---- One attempt ----

  /** What the upload of an attempt gave: an error unless it succeeded, and the object stored, if any. */
  datatype Upload = Upload(error: Option<string>, obj: Option<Object>) {
    predicate Ok() { error.None? }
    /** Something may be on the copy target. */
    predicate Stored() { Ok() || obj.Some? }
  }

  datatype Settled = Gone | Skipped | Recorded(copy: Copy)

  /** The copy after an attempt at time at was recorded on it. */
  function AfterAttempt(cfg: Config, c: Copy, up: Upload, at: int, sha: string): Copy {
    var tried := c.(attempts := c.attempts + 1);
    if up.Ok() then Succeed(tried, up.obj, at, sha)
    else RecordFailure(tried, up.error.value, up.obj)
         .(nextAttempt := if tried.attempts < cfg.maxAttempts then Some(at + Wait(cfg, tried.attempts)) else None)
  }

  /** The update of attempt, on the copy the record then holds (None: it holds none). */
  function SettleBackup(cfg: Config, cur: Option<Copy>, key: string, up: Upload, at: int, sha: string): Settled {
    if cur.None? || cur.value.key != key || cur.value.status == Purged then Gone
    else if !up.Ok() && !Waiting(cur.value) then Skipped
    else Recorded(AfterAttempt(cfg, cur.value, up, at, sha))
  }

  /** The update of attemptChunk. */
  function SettleChunk(cfg: Config, cur: Option<Copy>, key: string, up: Upload, at: int, sha: string): Settled {
    if cur.None? || cur.value.status == Purged || cur.value.key != key then Gone
    else if !Waiting(cur.value) then Skipped
    else Recorded(AfterAttempt(cfg, cur.value, up, at, sha))
  }

  /** What an attempt leaves behind is removed again. */
  predicate Removes(s: Settled, up: Upload) { s.Gone? && up.Stored() }

  /** An upload is accounted for: recorded on its copy as done, or handed to removal. */
  predicate Accounted(s: Settled, up: Upload, key: string) {
    Removes(s, up) || (s.Recorded? && s.copy.status == Done && s.copy.key == key && MayExist(s.copy) && s.copy.checked)
  }

  /** A successful upload of attempt is accounted for, whatever happened to the record meanwhile. */
  lemma BackupUploadAccounted(cfg: Config, cur: Option<Copy>, key: string, up: Upload, at: int, sha: string)
    requires up.Ok()
    ensures Accounted(SettleBackup(cfg, cur, key, up, at, sha), up, key)
  {
  }

  /** A successful upload of attemptChunk is accounted for if and only if the copy is still waiting, or gone. */
  lemma ChunkUploadAccounted(cfg: Config, cur: Option<Copy>, key: string, up: Upload, at: int, sha: string)
    requires up.Ok()
    ensures Accounted(SettleChunk(cfg, cur, key, up, at, sha), up, key)
       <==> cur.None? || cur.value.key != key || cur.value.status == Purged || Waiting(cur.value)
  {
  }

  /**
   * An attempt counts itself once and leaves the copy waiting only below the maximum, due
   * after its backoff; a stored object is always tracked by the copy afterwards.
   */
  lemma AttemptRecorded(cfg: Config, c: Copy, up: Upload, at: int, sha: string)
    requires cfg.Valid()
    ensures var c' := AfterAttempt(cfg, c, up, at, sha);
            && c'.attempts == c.attempts + 1 && c'.key == c.key && c'.target == c.target
            && (Waiting(c') <==> !up.Ok() && c'.attempts < cfg.maxAttempts)
            && (Waiting(c') ==> forall now: int :: Due(c', now) <==> now >= at + Wait(cfg, c'.attempts))
            && (up.Stored() ==> MayExist(c'))
            && (up.obj.Some? ==> c'.version == up.obj.value.version)
  {
  }

  /**
   * After an attempt the copy tracks an object that was there before if and only if the attempt
   * stored one itself, or an earlier one was noted as written or locked: a copy that was done and
   * is queued again as damaged loses track of its object when the attempt stores nothing.
   */
  lemma TrackingKept(cfg: Config, c: Copy, up: Upload, at: int, sha: string)
    ensures MayExist(AfterAttempt(cfg, c, up, at, sha)) <==> up.Stored() || c.written || c.retainUntil.Some?
  {
  }

  // ---- CopyAll ----

  const SYNC_ATTEMPTS := 3

  /** One attempt of a synchronous copy: mismatch is a checksum mismatch, ended that the context ended. */
  datatype Try = Try(up: Upload, mismatch: bool, ended: bool)

  predicate Final(t: Try) { t.up.Ok() || t.mismatch || t.ended }

  function LaterObject(a: Option<Object>, b: Option<Object>): Option<Object> { if b.Some? then b else a }

  /** The copy after up to |tries| attempts; obj is the last object an earlier one left. */
  function SyncFrom(c: Copy, tries: seq<Try>, obj: Option<Object>, at: int, sha: string): Copy
    requires tries != []
    decreases |tries|
  {
    var t, tried := tries[0], c.(attempts := c.attempts + 1);
    var last := LaterObject(obj, t.up.obj);
    if t.up.Ok() then Succeed(tried, t.up.obj, at, sha)
    else if Final(t) || |tries| == 1 then RecordFailure(tried, t.up.error.value, last).(nextAttempt := None)
    else SyncFrom(tried, tries[1..], last, at, sha)
  }

  /** The copy after CopyAll. */
  function Synced(c: Copy, tries: seq<Try>, at: int, sha: string): Copy
    requires |tries| == SYNC_ATTEMPTS
  {
    if c.status != Pending then c else SyncFrom(c, tries, None, at, sha)
  }

  method CopyOneSync(c: Copy, tries: seq<Try>, at: int, sha: string) returns (c': Copy)
    requires |tries| == SYNC_ATTEMPTS
    ensures c' == SyncFrom(c, tries, None, at, sha)
  {
    var attempt, lastObj: Option<Object> := 1, None;
    c' := c;
    while true
      invariant 1 <= attempt <= SYNC_ATTEMPTS
      invariant SyncFrom(c, tries, None, at, sha) == SyncFrom(c', tries[attempt - 1..], lastObj, at, sha)
      decreases SYNC_ATTEMPTS - attempt
    {
      var t := tries[attempt - 1];
      assert tries[attempt - 1..][1..] == tries[attempt..];
      c' := c'.(attempts := c'.attempts + 1);
      if t.up.Ok() { return Succeed(c', t.up.obj, at, sha); }
      if t.up.obj.Some? { lastObj := t.up.obj; }
      if t.mismatch || t.ended || attempt == SYNC_ATTEMPTS {
        return RecordFailure(c', t.up.error.value, lastObj).(nextAttempt := None);
      }
      attempt := attempt + 1;
    }
  }

  /** CopyAll, in place on the record's copies: failed lists the copies that failed, in order. */
  method CopyAll(copies: array<Copy>, tries: seq<seq<Try>>, at: int, sha: string) returns (failed: seq<nat>)
    requires |tries| == copies.Length && forall i :: 0 <= i < |tries| ==> |tries[i]| == SYNC_ATTEMPTS
    modifies copies
    ensures forall i :: 0 <= i < copies.Length ==> copies[i] == Synced(old(copies[i]), tries[i], at, sha)
    ensures forall i: nat :: i in failed <==> i < copies.Length && old(copies[i]).status == Pending && copies[i].status == Failed
  {
    failed := [];
    for i := 0 to copies.Length
      invariant forall j :: 0 <= j < i ==> copies[j] == Synced(old(copies[j]), tries[j], at, sha)
      invariant forall j :: i <= j < copies.Length ==> copies[j] == old(copies[j])
      invariant forall j: nat :: j in failed <==> j < i && old(copies[j]).status == Pending && copies[j].status == Failed
    {
      if copies[i].status == Pending {
        var c := CopyOneSync(copies[i], tries[i], at, sha);
        copies[i] := c;
        if c.status == Failed { failed := failed + [i]; }
      }
    }
  }

  /** The attempt that ends a synchronous copy: the first final one, or the last. */
  function Ending(tries: seq<Try>): nat
    requires tries != []
  {
    if Final(tries[0]) || |tries| == 1 then 0 else 1 + Ending(tries[1..])
  }

  /**
   * A synchronous copy ends: it is done exactly when the attempt that ends it succeeded, else it
   * failed for good (it is not left in the queue); every attempt is counted. That attempt is the
   * first final one, or the last when none is final.
   */
  lemma {:induction false} SyncEnds(c: Copy, tries: seq<Try>, obj: Option<Object>, at: int, sha: string)
    requires tries != []
    ensures var c' := SyncFrom(c, tries, obj, at, sha);
            && Ending(tries) < |tries| && (Final(tries[Ending(tries)]) || Ending(tries) == |tries| - 1)
            && (forall m :: 0 <= m < Ending(tries) ==> !Final(tries[m]))
            && c'.attempts == c.attempts + Ending(tries) + 1 && c'.key == c.key && !Waiting(c')
            && c'.status == if tries[Ending(tries)].up.Ok() then Done else Failed
    decreases |tries|
  {
    if !Final(tries[0]) && |tries| > 1 {
      SyncEnds(c.(attempts := c.attempts + 1), tries[1..], LaterObject(obj, tries[0].up.obj), at, sha);
    }
  }

  /** Every object a synchronous copy leaves behind is tracked by it. */
  lemma {:induction false} SyncTracks(c: Copy, tries: seq<Try>, obj: Option<Object>, at: int, sha: string, m: nat)
    requires tries != [] && (obj.Some? || c.written || (m <= Ending(tries) && m < |tries| && tries[m].up.Stored()))
    ensures MayExist(SyncFrom(c, tries, obj, at, sha))
    decreases |tries|
  {
    if !Final(tries[0]) && |tries| > 1 {
      SyncTracks(c.(attempts := c.attempts + 1), tries[1..], LaterObject(obj, tries[0].up.obj), at, sha, if m == 0 then 0 else m - 1);
    }
  }
}
