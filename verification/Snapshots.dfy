// The metadata snapshots of an HA cluster and how a takeover selects among them
// (internal/ha/lease.go, internal/ha/snapshotheader.go, internal/app/ha_handover.go).
// What the HA target answers is arbitrary: it may hide, delete, rename or damage
// snapshots, but it cannot write an authentic header.
module Snapshots {
  import opened Decimal

  /** How new a snapshot is: its epoch, then its time. */
  datatype Mark = Mark(epoch: nat, at: int)

  const ZERO := Mark(0, 0)

  /** SnapshotMark.Before. */
  predicate Before(a: Mark, b: Mark) { if a.epoch != b.epoch then a.epoch < b.epoch else a.at < b.at }

  function Later(a: Mark, b: Mark): Mark { if Before(a, b) then b else a }

  /** A listed snapshot: what its unauthenticated name says. */
  datatype Info = Info(key: string, epoch: nat, at: int) {
    function At(): Mark { Mark(epoch, at) }
  }

  datatype Header = Header(cluster: string, epoch: nat, instance: string, at: int)

  /** What reading the start of a snapshot gave. */
  datatype Read = HasHeader(h: Header) | NoHeader | Malformed | Undecryptable | NewerFormat | StorageFailure

  datatype Error = NoError | Legacy | Rejected | Unreadable | Format | Storage

  datatype Check = Check(info: Info, header: Option<Header>, err: Error) {
    predicate Verified() { err == NoError && header.Some? }
    predicate Refused() { err == Rejected || err == Unreadable }
    predicate Failed() { !Verified() && err != Legacy && !Refused() }
    predicate Determinate() { err != Storage }
  }

  /** SnapshotHeader.verify, for a name that is a snapshot name of the cluster. */
  predicate Matches(h: Header, cluster: string, info: Info) { h.cluster == cluster && h.epoch == info.epoch && h.at == info.at }

  /** CheckSnapshot. */
  function CheckOf(cluster: string, info: Info, read: Read): Check {
    match read
    case HasHeader(h) => Check(info, Some(h), if Matches(h, cluster, info) then NoError else Rejected)
    case NoHeader => Check(info, None, Legacy)
    case Malformed => Check(info, None, Rejected)
    case Undecryptable => Check(info, None, Unreadable)
    case NewerFormat => Check(info, None, Format)
    case StorageFailure => Check(info, None, Storage)
  }

  datatype Selection = Selection(verified: seq<Check>, legacy: seq<Check>, refused: seq<Check>, failed: seq<Check>, listed: nat,
                                 complete: bool, headerSeen: bool, failedAhead: bool) {
    /** Candidates, and whether they are legacy ones. */
    function Candidates(): (seq<Check>, bool) {
      if failedAhead then ([], false)
      else if verified != [] then (verified, false)
      else if complete && !headerSeen && legacy != [] then (legacy, true)
      else ([], false)
    }
  }

  /** The effect of one check on a selection. */
  function Classify(cluster: string, sel: Selection, c: Check): Selection {
    var s :=
      if c.Verified() then sel.(verified := sel.verified + [c])
      else if c.err == Legacy then sel.(legacy := sel.legacy + [c])
      else if c.Refused() then sel.(refused := sel.refused + [c])
      else sel.(failed := sel.failed + [c], failedAhead := sel.failedAhead || sel.verified == []);
    s.(headerSeen := s.headerSeen || (c.header.Some? && c.header.value.cluster == cluster) || c.err == Format,
       complete := s.complete && c.Determinate())
  }

  /** What selecting want verified snapshots finds; want 0 reads all of them. */
  function Selected(cluster: string, listed: nat, cs: seq<Check>, want: nat): Selection {
    if cs == [] then Selection([], [], [], [], listed, true, false, false)
    else
      var sel := Selected(cluster, listed, cs[..|cs| - 1], want);
      if want > 0 && |sel.verified| >= want then sel.(complete := false) else Classify(cluster, sel, cs[|cs| - 1])
  }

  function Checks(cluster: string, list: seq<Info>, answers: seq<Read>): (cs: seq<Check>)
    requires |list| == |answers|
    ensures |cs| == |list| && forall i :: 0 <= i < |cs| ==> cs[i] == CheckOf(cluster, list[i], answers[i])
  {
    seq(|list|, i requires 0 <= i < |list| => CheckOf(cluster, list[i], answers[i]))
  }

  /** selectSnapshots. */
  method SelectSnapshots(cluster: string, list: seq<Info>, answers: seq<Read>, want: nat) returns (sel: Selection)
    requires |answers| == |list|
    ensures sel == Selected(cluster, |list|, Checks(cluster, list, answers), want)
  {
    ghost var cs := Checks(cluster, list, answers);
    sel := Selection([], [], [], [], |list|, true, false, false);
    for i := 0 to |list|
      invariant sel == Selected(cluster, |list|, cs[..i], want)
      invariant i < |list| ==> cs[i] == CheckOf(cluster, list[i], answers[i])
    {
      assert cs[..i + 1][..i] == cs[..i];
      if want > 0 && |sel.verified| >= want {
        sel := sel.(complete := false);
        StaysFull(cluster, cs, i, want);
        assert cs[..|list|] == cs;
        return;
      }
      sel := Classify(cluster, sel, CheckOf(cluster, list[i], answers[i]));
    }
    assert cs[..|list|] == cs;
  }

  /** Once enough verified snapshots are found, nothing else is looked at. */
  lemma {:induction false} StaysFull(cluster: string, cs: seq<Check>, i: nat, want: nat)
    requires i < |cs| && want > 0 && |Selected(cluster, |cs|, cs[..i], want).verified| >= want
    ensures Selected(cluster, |cs|, cs, want) == Selected(cluster, |cs|, cs[..i], want).(complete := false)
  {
    StaysFullTo(cluster, |cs|, cs, i, |cs|, want);
    assert cs[..|cs|] == cs;
  }

  lemma {:induction false} StaysFullTo(cluster: string, listed: nat, cs: seq<Check>, i: nat, j: nat, want: nat)
    requires i < j <= |cs| && want > 0 && |Selected(cluster, listed, cs[..i], want).verified| >= want
    ensures Selected(cluster, listed, cs[..j], want) == Selected(cluster, listed, cs[..i], want).(complete := false)
    decreases j
  {
    assert cs[..j][..j - 1] == cs[..j - 1];
    if i < j - 1 { StaysFullTo(cluster, listed, cs, i, j - 1, want); }
  }

  // ---- What a selection means ----

  /** The checks of a listing that are verified, in order. */
  function VerifiedOf(cs: seq<Check>): seq<Check> {
    if cs == [] then [] else VerifiedOf(cs[..|cs| - 1]) + if cs[|cs| - 1].Verified() then [cs[|cs| - 1]] else []
  }

  function Take(s: seq<Check>, n: nat): seq<Check> { if n == 0 || |s| <= n then s else s[..n] }

  /** The verified snapshots of a selection are the first ones of the listing. */
  lemma {:induction false} SelectedVerified(cluster: string, listed: nat, cs: seq<Check>, want: nat)
    ensures Selected(cluster, listed, cs, want).verified == Take(VerifiedOf(cs), want)
  {
    if cs != [] {
      SelectedVerified(cluster, listed, cs[..|cs| - 1], want);
    }
  }

  /** The check at i failed before any verified snapshot was found. */
  predicate AheadAt(cs: seq<Check>, i: int) { 0 <= i < |cs| && cs[i].Failed() && VerifiedOf(cs[..i]) == [] }

  lemma AheadAtInit(cs: seq<Check>, i: int)
    requires cs != []
    ensures AheadAt(cs[..|cs| - 1], i) <==> AheadAt(cs, i) && i < |cs| - 1
  {
    if 0 <= i < |cs| - 1 { assert cs[..|cs| - 1][..i] == cs[..i]; }
  }

  lemma {:induction false} AheadNamed(cluster: string, listed: nat, cs: seq<Check>, want: nat)
    ensures Selected(cluster, listed, cs, want).failedAhead ==> Selected(cluster, listed, cs, want).failed != []
  {
    if cs != [] { AheadNamed(cluster, listed, cs[..|cs| - 1], want); }
  }

  /** A selection reports a failure ahead exactly when a check failed before any verified one. */
  lemma {:induction false} SelectedAhead(cluster: string, listed: nat, cs: seq<Check>, want: nat)
    ensures Selected(cluster, listed, cs, want).failedAhead <==> exists i :: AheadAt(cs, i)
  {
    if cs != [] {
      var init := cs[..|cs| - 1];
      SelectedAhead(cluster, listed, init, want);
      SelectedVerified(cluster, listed, init, want);
      forall i
        ensures AheadAt(init, i) <==> AheadAt(cs, i) && i < |cs| - 1
      {
        AheadAtInit(cs, i);
      }
      assert AheadAt(cs, |cs| - 1) <==> cs[|cs| - 1].Failed() && VerifiedOf(init) == [];
    }
  }

  /** A complete selection read every snapshot, and saw a header of the cluster if there is one. */
  lemma {:induction false} SelectedComplete(cluster: string, listed: nat, cs: seq<Check>, want: nat)
    requires Selected(cluster, listed, cs, want).complete
    ensures forall i :: 0 <= i < |cs| ==> cs[i].Determinate()
    ensures Selected(cluster, listed, cs, want).headerSeen
       <==> exists i :: 0 <= i < |cs| && (cs[i].err == Format || (cs[i].header.Some? && cs[i].header.value.cluster == cluster))
  {
    if cs != [] {
      var init := cs[..|cs| - 1];
      SelectedComplete(cluster, listed, init, want);
      assert forall i :: 0 <= i < |init| ==> init[i] == cs[i];
    }
  }

  /** The order of ListSnapshots. */
  predicate Sorted(cs: seq<Check>) { forall i, j :: 0 <= i < j < |cs| ==> !Before(cs[i].info.At(), cs[j].info.At()) }

  /** The position of a verified snapshot in the listing. */
  lemma {:induction false} VerifiedAt(cs: seq<Check>, k: nat) returns (i: nat)
    requires k < |VerifiedOf(cs)|
    ensures i < |cs| && cs[i] == VerifiedOf(cs)[k] && cs[i].Verified()
    ensures |VerifiedOf(cs[..i])| == k
  {
    var init := cs[..|cs| - 1];
    if k < |VerifiedOf(init)| {
      i := VerifiedAt(init, k);
      assert cs[..i] == init[..i];
    } else {
      i := |cs| - 1;
    }
  }

  lemma {:induction false} VerifiedMonotone(cs: seq<Check>, i: nat, j: nat)
    requires i <= j <= |cs|
    ensures |VerifiedOf(cs[..i])| <= |VerifiedOf(cs[..j])|
    ensures i < j && cs[i].Verified() ==> |VerifiedOf(cs[..i])| < |VerifiedOf(cs[..j])|
    decreases j
  {
    if i < j {
      assert cs[..j][..j - 1] == cs[..j - 1];
      VerifiedMonotone(cs, i, j - 1);
    }
  }

  /**
   * The first candidate is the newest genuine snapshot of the whole listing: no verified
   * snapshot is newer, and nothing that sorts before it might be one.
   */
  lemma NewestIsNewest(cluster: string, cs: seq<Check>, want: nat, j: nat)
    requires Sorted(cs) && j < |cs|
    requires var (list, legacy) := Selected(cluster, |cs|, cs, want).Candidates(); list != [] && !legacy
    ensures var newest := Selected(cluster, |cs|, cs, want).Candidates().0[0];
            && newest.Verified() && newest in cs
            && (cs[j].Verified() ==> !Before(newest.info.At(), cs[j].info.At()))
            && (cs[j].Failed() ==> !Before(newest.info.At(), cs[j].info.At()))
  {
    SelectedVerified(cluster, |cs|, cs, want);
    SelectedAhead(cluster, |cs|, cs, want);
    var i := VerifiedAt(cs, 0);
    if (cs[j].Verified() || cs[j].Failed()) && j < i {
      VerifiedMonotone(cs, j, i);
      assert AheadAt(cs, j);
    }
  }

  /** The second candidate bounds every other genuine snapshot of the listing. */
  lemma SecondIsSecond(cluster: string, cs: seq<Check>, j: nat)
    requires Sorted(cs) && j < |cs| && cs[j].Verified()
    requires var (list, legacy) := Selected(cluster, |cs|, cs, 2).Candidates(); !legacy && |list| > 1
    requires |VerifiedOf(cs[..j])| != 0
    ensures !Before(Selected(cluster, |cs|, cs, 2).Candidates().0[1].info.At(), cs[j].info.At())
  {
    SelectedVerified(cluster, |cs|, cs, 2);
    var i := VerifiedAt(cs, 1);
    if j < i { VerifiedMonotone(cs, j, i); }
  }

  /** A legacy candidate means that no snapshot of the cluster with an authentic header was listed. */
  lemma LegacyMeansNoHeader(cluster: string, cs: seq<Check>, want: nat, j: nat)
    requires Selected(cluster, |cs|, cs, want).Candidates().1 && j < |cs|
    ensures cs[j].Determinate() && cs[j].err != Format && !cs[j].Verified()
    ensures cs[j].header.Some? ==> cs[j].header.value.cluster != cluster
  {
    SelectedComplete(cluster, |cs|, cs, want);
    SelectedVerified(cluster, |cs|, cs, want);
    assert cs[..|cs|] == cs;
    VerifiedMonotone(cs, j, |cs|);
  }

  // ---- The retry loops of a takeover ----

  const ATTEMPTS := 4

  /** What one attempt to select gives. */
  datatype Attempt = ListError | Found(sel: Selection)

  datatype Choice = NoChoice | Chosen(sel: Selection)

  /** FailedAhead: the selection names a snapshot that may be the newest. */
  predicate FailedAhead(sel: Selection) { sel.failedAhead && sel.failed != [] }

  /** The result of selectForTakeover after n attempts, given what each attempt finds. */
  function Choose(tries: seq<Attempt>, pauses: seq<bool>, n: nat): Choice
    requires |tries| == |pauses| == ATTEMPTS && n < ATTEMPTS
    decreases ATTEMPTS - n
  {
    if tries[n].ListError? then NoChoice
    else if !FailedAhead(tries[n].sel) then Chosen(tries[n].sel)
    else if n + 1 >= ATTEMPTS || !pauses[n] then NoChoice
    else Choose(tries, pauses, n + 1)
  }

  /** selectForTakeover: pauses tells whether the pause after each attempt ended normally. */
  method SelectForTakeover(tries: seq<Attempt>, pauses: seq<bool>) returns (c: Choice)
    requires |tries| == |pauses| == ATTEMPTS
    ensures c == Choose(tries, pauses, 0)
  {
    var attempt := 1;
    while true
      invariant 1 <= attempt <= ATTEMPTS
      invariant Choose(tries, pauses, 0) == Choose(tries, pauses, attempt - 1)
      decreases ATTEMPTS - attempt
    {
      if tries[attempt - 1].ListError? { return NoChoice; }
      var sel := tries[attempt - 1].sel;
      if !FailedAhead(sel) { return Chosen(sel); }
      if attempt >= ATTEMPTS { return NoChoice; }
      if !pauses[attempt - 1] { return NoChoice; }
      attempt := attempt + 1;
    }
  }

  /** Checks of a listing in the order of ListSnapshots, each of them what reading the snapshot gave. */
  ghost predicate Listing(cluster: string, cs: seq<Check>) {
    Sorted(cs) && forall i :: 0 <= i < |cs| ==> exists read :: cs[i] == CheckOf(cluster, cs[i].info, read)
  }

  /** The selection comes from some listing. */
  ghost predicate FromListing(cluster: string, want: nat, sel: Selection) {
    exists cs :: Listing(cluster, cs) && sel == Selected(cluster, |cs|, cs, want)
  }

  lemma ListingNamed(cluster: string, want: nat, sel: Selection)
    requires FromListing(cluster, want, sel)
    ensures FailedAhead(sel) <==> sel.failedAhead
  {
    var cs :| Listing(cluster, cs) && sel == Selected(cluster, |cs|, cs, want);
    AheadNamed(cluster, |cs|, cs, want);
  }

  /**
   * A selection is only ever chosen when nothing that may be newer was left unread, and
   * then every earlier attempt had such a snapshot.
   */
  lemma {:induction false} ChosenReadsAhead(tries: seq<Attempt>, pauses: seq<bool>, n: nat) returns (k: nat)
    requires |tries| == |pauses| == ATTEMPTS && n < ATTEMPTS && Choose(tries, pauses, n).Chosen?
    ensures n <= k < ATTEMPTS && tries[k] == Found(Choose(tries, pauses, n).sel) && !FailedAhead(tries[k].sel)
    ensures forall m :: n <= m < k ==> tries[m].Found? && FailedAhead(tries[m].sel)
    decreases ATTEMPTS - n
  {
    if FailedAhead(tries[n].sel) {
      k := ChosenReadsAhead(tries, pauses, n + 1);
    } else {
      k := n;
    }
  }

  /** What one attempt to restore a snapshot gives. */
  datatype Restore = Restored(header: bool) | Final(err: Error) | Transient

  /** The result of restoreWithRetry after n attempts: whether the snapshot restored has a header. */
  function Retry(results: seq<Restore>, pauses: seq<bool>, n: nat): Option<bool>
    requires |results| == |pauses| == ATTEMPTS && n < ATTEMPTS
    decreases ATTEMPTS - n
  {
    match results[n]
    case Restored(h) => Some(h)
    case Final(_) => None
    case Transient => if n + 1 >= ATTEMPTS || !pauses[n] then None else Retry(results, pauses, n + 1)
  }

  /** restoreWithRetry: the same snapshot again, never another one. */
  method RestoreWithRetry(results: seq<Restore>, pauses: seq<bool>) returns (r: Option<bool>)
    requires |results| == |pauses| == ATTEMPTS
    ensures r == Retry(results, pauses, 0)
  {
    var attempt := 1;
    while true
      invariant 1 <= attempt <= ATTEMPTS
      invariant Retry(results, pauses, 0) == Retry(results, pauses, attempt - 1)
      decreases ATTEMPTS - attempt
    {
      match results[attempt - 1]
      case Restored(h) => return Some(h);
      case Final(_) => return None;
      case Transient =>
        if attempt >= ATTEMPTS || !pauses[attempt - 1] { return None; }
        attempt := attempt + 1;
    }
  }

  /** Attempt k restored the snapshot, and all from n on before it failed in a way that may pass. */
  predicate RestoredAt(results: seq<Restore>, pauses: seq<bool>, n: nat, k: int)
    requires |results| == |pauses|
  {
    n <= k < |results| && results[k].Restored? && forall m :: n <= m < k ==> results[m].Transient? && pauses[m]
  }

  /** Restoring succeeds exactly when some attempt does before one fails for good. */
  lemma {:induction false} RetrySucceeds(results: seq<Restore>, pauses: seq<bool>, n: nat)
    requires |results| == |pauses| == ATTEMPTS && n < ATTEMPTS
    ensures Retry(results, pauses, n).Some? <==> exists k :: RestoredAt(results, pauses, n, k)
    ensures forall k :: RestoredAt(results, pauses, n, k) ==> results[k] == Restored(Retry(results, pauses, n).value)
    decreases ATTEMPTS - n
  {
    if results[n].Restored? {
      assert RestoredAt(results, pauses, n, n);
    } else if results[n].Transient? && n + 1 < ATTEMPTS && pauses[n] {
      RetrySucceeds(results, pauses, n + 1);
      if Retry(results, pauses, n + 1).Some? {
        var k: int :| RestoredAt(results, pauses, n + 1, k);
        assert RestoredAt(results, pauses, n, k);
      }
      assert forall k: int :: RestoredAt(results, pauses, n, k) ==> RestoredAt(results, pauses, n + 1, k);
    }
  }
}
