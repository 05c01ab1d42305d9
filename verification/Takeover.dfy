// The takeover of an HA member (internal/app/ha_handover.go) with the state file and the
// lease manager it decides on (internal/ha/state.go, internal/ha/manager.go). The HA
// target is free to hide or delete snapshots and leases and to put old ones back.
module Takeover {
  import opened Decimal
  import opened Snapshots

  // ---- The state file ----

  datatype State = State(cluster: string, lastActiveEpoch: nat, clusters: map<string, Mark>, authenticated: set<string>) {
    predicate Seen(c: string) { c in clusters || (cluster == c && lastActiveEpoch > 0) }

    function HighWater(c: string): Mark { if c in clusters then clusters[c] else ZERO }

    function Observe(c: string, mark: Mark, reset: bool): State {
      this.(clusters := clusters[c := if reset then mark else Later(HighWater(c), mark)])
    }
  }

  // ---- The lease ----

  datatype Lease = Lease(epoch: nat, mark: Mark)

  /** A stored lease: with a valid MAC, without one, with a wrong one, or not readable at all. */
  datatype Stored = Signed(lease: Lease) | Unsigned(lease: Lease) | Altered(lease: Lease) | Garbled

  datatype Trust = Absent | Untrusted | Authentic

  datatype Predecessor = Predecessor(trust: Trust, legacy: bool, lease: Lease, mark: Mark)

  /** assess: what the replaced lease is worth. */
  function Assess(seenMark: Mark, prev: Option<Stored>): Predecessor {
    match prev
    case None => Predecessor(Absent, false, Lease(0, ZERO), seenMark)
    case Some(Garbled) => Predecessor(Untrusted, false, Lease(0, ZERO), seenMark)
    case Some(Unsigned(l)) => Predecessor(Untrusted, true, l, seenMark)
    case Some(Altered(l)) => Predecessor(Untrusted, false, l, seenMark)
    case Some(Signed(l)) => Predecessor(Authentic, false, l, Later(seenMark, l.mark))
  }

  // ---- The decision ----

  datatype Reason = LeaseMissing | LeaseUntrusted | LeaseReplayed | LeaseStale | LegacyAfterUpgrade | BehindLease | BehindLocal

  datatype Plan =
    | Suspect(reason: Reason)
    | Fail
    | EmptyStart
    | KeepOwn(newest: Check, legacy: bool)
    | RestoreNewest(newest: Check, legacy: bool)
  {
    predicate Proceeds() { EmptyStart? || KeepOwn? || RestoreNewest? }

    /** The mark a plan confirms. */
    function Confirms(): Mark
      requires Proceeds()
    {
      if EmptyStart? || legacy then ZERO else newest.info.At()
    }
  }

  /** The lease is good enough to decide on the snapshots found. */
  predicate LeaseAccepted(cluster: string, local: State, pred: Predecessor, sel: Selection) {
    match pred.trust
    case Absent => false
    case Untrusted => pred.legacy && !sel.headerSeen && cluster !in local.authenticated
    case Authentic => true
  }

  /** The snapshot was written by this instance under the last epoch it was active in. */
  predicate Own(cluster: string, id: string, local: State, c: Check, legacy: bool) {
    && local.cluster == cluster && c.info.epoch != 0 && c.info.epoch == local.lastActiveEpoch
    && (legacy || (c.header.Some? && c.header.value.instance == id))
  }

  /** The unforced part of prepareTakeover, for the selection found. */
  function Decide(cluster: string, id: string, local: State, pred: Predecessor, sel: Selection): Plan {
    if sel.listed == 0 then
      if pred.trust == Absent && !local.Seen(cluster) then EmptyStart
      else if pred.trust == Absent then Suspect(LeaseMissing)
      else Fail
    else if pred.trust == Absent then Suspect(LeaseMissing)
    else if !LeaseAccepted(cluster, local, pred, sel) then Suspect(LeaseUntrusted)
    else DecideSnapshot(cluster, id, local, pred, sel)
  }

  function DecideSnapshot(cluster: string, id: string, local: State, pred: Predecessor, sel: Selection): Plan {
    var (candidates, legacy) := sel.Candidates();
    if candidates == [] then Fail
    else
      var newest, high, authentic := candidates[0], local.HighWater(cluster), pred.trust == Authentic;
      if !legacy && authentic && newest.info.epoch > pred.lease.epoch then Suspect(LeaseReplayed)
      else if !legacy && authentic && |candidates| > 1 && Before(pred.lease.mark, candidates[1].info.At()) then Suspect(LeaseStale)
      else if legacy && (pred.mark != ZERO || high != ZERO) then Suspect(LegacyAfterUpgrade)
      else if !legacy && Before(newest.info.At(), pred.mark) then Suspect(BehindLease)
      else if !legacy && Before(newest.info.At(), high) then Suspect(BehindLocal)
      else if Own(cluster, id, local, newest, legacy) then KeepOwn(newest, legacy)
      else RestoreNewest(newest, legacy)
  }

  /** What makes a takeover safe: stated over the lease, the instance's history and the listing. */
  predicate Safe(cluster: string, local: State, pred: Predecessor, sel: Selection) {
    var (candidates, legacy) := sel.Candidates();
    var high := local.HighWater(cluster);
    if sel.listed == 0 then pred.trust == Absent && !local.Seen(cluster)
    else
      && LeaseAccepted(cluster, local, pred, sel) && candidates != []
      && (if legacy then pred.mark == ZERO && high == ZERO
          else
            && !Before(candidates[0].info.At(), pred.mark) && !Before(candidates[0].info.At(), high)
            && (pred.trust == Authentic ==>
                  && candidates[0].info.epoch <= pred.lease.epoch
                  && (|candidates| > 1 ==> !Before(pred.lease.mark, candidates[1].info.At()))))
  }

  /** A takeover goes ahead exactly when it is safe, and it confirms what it found. */
  lemma ProceedsIffSafe(cluster: string, id: string, local: State, pred: Predecessor, sel: Selection)
    ensures var plan := Decide(cluster, id, local, pred, sel);
            && (plan.Proceeds() <==> Safe(cluster, local, pred, sel))
            && (plan.EmptyStart? <==> sel.listed == 0 && Safe(cluster, local, pred, sel))
            && (plan.Proceeds() && !plan.EmptyStart? ==>
                  && plan.newest == sel.Candidates().0[0] && plan.legacy == sel.Candidates().1
                  && (plan.KeepOwn? <==> Own(cluster, id, local, plan.newest, plan.legacy)))
  {
  }

  /**
   * No rollback in one takeover, whatever the HA target lists: an authenticated snapshot that
   * is confirmed is at least as new as the one the lease names, as the newest this instance
   * wrote or restored, and as every genuine snapshot listed; and it was written under an epoch
   * its authenticated header proves.
   */
  lemma NoRollback(cluster: string, id: string, local: State, pred: Predecessor, cs: seq<Check>, j: nat)
    requires Listing(cluster, cs) && j < |cs|
    requires var plan := Decide(cluster, id, local, pred, Selected(cluster, |cs|, cs, 2)); plan.Proceeds() && !plan.EmptyStart? && !plan.legacy
    ensures var plan := Decide(cluster, id, local, pred, Selected(cluster, |cs|, cs, 2));
            && !Before(plan.Confirms(), pred.mark) && !Before(plan.Confirms(), local.HighWater(cluster))
            && plan.newest.Verified() && plan.newest.header.value.epoch == plan.Confirms().epoch
            && plan.newest.header.value.cluster == cluster
            && (cs[j].Verified() || cs[j].Failed() ==> !Before(plan.Confirms(), cs[j].info.At()))
  {
    var sel := Selected(cluster, |cs|, cs, 2);
    ProceedsIffSafe(cluster, id, local, pred, sel);
    ListedKept(cluster, |cs|, cs, 2);
    NewestIsNewest(cluster, cs, 2, j);
    var i :| 0 <= i < |cs| && cs[i] == sel.Candidates().0[0];
    var read :| cs[i] == CheckOf(cluster, cs[i].info, read);
  }

  /**
   * The same for the whole procedure with its retries: what an unforced takeover confirms is at or
   * above the lease's mark, the high-water mark and everything genuine or unread in the listing it
   * chose, and it passed over an attempt only for a snapshot that might have been newer.
   */
  lemma ChosenNoRollback(cluster: string, id: string, local: State, pred: Predecessor, tries: seq<Attempt>, pauses: seq<bool>)
    returns (n: nat, cs: seq<Check>)
    requires |tries| == |pauses| == ATTEMPTS && forall m :: 0 <= m < ATTEMPTS && tries[m].Found? ==> FromListing(cluster, 2, tries[m].sel)
    requires Choose(tries, pauses, 0).Chosen?
    requires var plan := Decide(cluster, id, local, pred, Choose(tries, pauses, 0).sel); plan.Proceeds() && !plan.EmptyStart? && !plan.legacy
    ensures n < ATTEMPTS && Listing(cluster, cs) && tries[n] == Found(Choose(tries, pauses, 0).sel) == Found(Selected(cluster, |cs|, cs, 2))
    ensures forall m :: 0 <= m < n ==> tries[m].Found? && tries[m].sel.failedAhead
    ensures var mark := Decide(cluster, id, local, pred, Choose(tries, pauses, 0).sel).Confirms();
            && !Before(mark, pred.mark) && !Before(mark, local.HighWater(cluster))
            && forall j :: 0 <= j < |cs| && (cs[j].Verified() || cs[j].Failed()) ==> !Before(mark, cs[j].info.At())
  {
    n := ChosenReadsAhead(tries, pauses, 0);
    forall m | 0 <= m < n
      ensures tries[m].sel.failedAhead
    {
      ListingNamed(cluster, 2, tries[m].sel);
    }
    cs :| Listing(cluster, cs) && tries[n].sel == Selected(cluster, |cs|, cs, 2);
    ProceedsIffSafe(cluster, id, local, pred, tries[n].sel);
    forall j | 0 <= j < |cs| && (cs[j].Verified() || cs[j].Failed())
      ensures !Before(Decide(cluster, id, local, pred, tries[n].sel).Confirms(), cs[j].info.At())
    {
      NoRollback(cluster, id, local, pred, cs, j);
    }
  }

  lemma {:induction false} ListedKept(cluster: string, listed: nat, cs: seq<Check>, want: nat)
    ensures Selected(cluster, listed, cs, want).listed == listed
  {
    if cs != [] { ListedKept(cluster, listed, cs[..|cs| - 1], want); }
  }

  // ---- A member over its whole life ----

  /** An instance: its state in memory and on disk, and what its lease manager holds. */
  datatype Member = Member(id: string, state: State, disk: State, seenMark: Mark, active: bool, pred: Predecessor, lease: Lease, signed: bool)

  /** updateState: memory always changes, the file only when the save succeeds. */
  function Update(m: Member, state: State, saved: bool): Member { m.(state := state, disk := if saved then state else m.disk) }

  /** Confirm: the held lease is signed and names at least mark. */
  function Confirmed(m: Member, mark: Mark): Member {
    if !m.active then m else m.(signed := true, lease := m.lease.(mark := Later(m.lease.mark, mark)))
  }

  datatype Step =
    | ObserveCluster(saved: bool)
    | SawAuthentic(saved: bool)
    | ReadLease(stored: Stored)
    | Acquire(prev: Option<Stored>, epoch: nat)
    | Take(sel: Selection, restored: bool, saved: bool)
    | Force(mark: Mark, saved: bool)
    | Wrote(mark: Mark, saved: bool)
    | RecordEpoch(saved: bool)
    | StepDown
    | Restart

  /** The plan of a step, when the step is an unforced takeover. */
  function PlanOf(cluster: string, m: Member, sel: Selection): Plan { Decide(cluster, m.id, m.state, m.pred, sel) }

  /** The takeover goes through: nothing has to be restored, or restoring works. */
  predicate Done(plan: Plan, restored: bool) { plan.Proceeds() && (plan.RestoreNewest? ==> restored) }

  function Apply(cluster: string, m: Member, step: Step): Member {
    match step
    case ObserveCluster(saved) => Update(m, m.state.Observe(cluster, ZERO, false), saved)
    case SawAuthentic(saved) =>
      Update(m, m.state.(authenticated := m.state.authenticated + {cluster}).Observe(cluster, ZERO, false), saved)
    case ReadLease(stored) => if stored.Signed? then m.(seenMark := Later(m.seenMark, stored.lease.mark)) else m
    case Acquire(prev, epoch) =>
      var pred := Assess(m.seenMark, prev);
      m.(active := true, pred := pred, lease := Lease(epoch, pred.mark), signed := pred.trust == Authentic)
    case Take(sel, restored, saved) =>
      var plan := PlanOf(cluster, m, sel);
      if Done(plan, restored) then Confirmed(Update(m, m.state.Observe(cluster, plan.Confirms(), false), saved), plan.Confirms()) else m
    case Force(mark, saved) => Confirmed(Update(m, m.state.Observe(cluster, mark, true), saved), mark)
    case Wrote(mark, saved) =>
      var m' := Update(m, m.state.Observe(cluster, mark, false), saved);
      if m.active then m'.(lease := m.lease.(mark := Later(m.lease.mark, mark))) else m'
    case RecordEpoch(saved) =>
      Update(m, m.state.(cluster := cluster, lastActiveEpoch := m.lease.epoch).Observe(cluster, ZERO, false), saved)
    case StepDown => m.(active := false)
    case Restart => m.(state := m.disk, seenMark := ZERO, active := false)
  }

  ghost predicate Runs(cluster: string, m: Member, steps: seq<Step>, m': Member)
    decreases |steps|
  {
    if steps == [] then m == m'
    else Runs(cluster, Apply(cluster, m, steps[0]), steps[1..], m')
  }

  /** Every save of the steps succeeds. */
  predicate Saves(step: Step) {
    match step
    case ObserveCluster(saved) => saved
    case SawAuthentic(saved) => saved
    case Take(_, _, saved) => saved
    case Force(_, saved) => saved
    case Wrote(_, saved) => saved
    case RecordEpoch(saved) => saved
    case _ => true
  }

  ghost predicate AllSaved(steps: seq<Step>) { forall i :: 0 <= i < |steps| ==> Saves(steps[i]) }

  ghost predicate Unforced(steps: seq<Step>) { forall i :: 0 <= i < |steps| ==> !steps[i].Force? }

  /** The high-water mark falls only at a forced takeover, or when a restart reads a file that missed a save. */
  lemma HighWaterFalls(cluster: string, m: Member, step: Step)
    requires Before(Apply(cluster, m, step).state.HighWater(cluster), m.state.HighWater(cluster))
    ensures step.Force? || (step.Restart? && m.disk != m.state)
  {
  }

  lemma SavedStep(cluster: string, m: Member, step: Step)
    requires m.disk == m.state && Saves(step)
    ensures Apply(cluster, m, step).disk == Apply(cluster, m, step).state
    ensures m.state.Seen(cluster) && !step.RecordEpoch? ==> Apply(cluster, m, step).state.Seen(cluster)
    ensures cluster in m.state.clusters ==> cluster in Apply(cluster, m, step).state.clusters
  {
  }

  /** Over every unforced run whose saves succeed, restarts included, the high-water mark never falls. */
  lemma {:induction false} HighWaterRises(cluster: string, m: Member, steps: seq<Step>, m': Member)
    requires Runs(cluster, m, steps, m') && m.disk == m.state && AllSaved(steps) && Unforced(steps)
    ensures !Before(m'.state.HighWater(cluster), m.state.HighWater(cluster)) && m'.disk == m'.state
    decreases |steps|
  {
    if steps != [] {
      var m1 := Apply(cluster, m, steps[0]);
      SavedStep(cluster, m, steps[0]);
      if Before(m1.state.HighWater(cluster), m.state.HighWater(cluster)) { HighWaterFalls(cluster, m, steps[0]); }
      HighWaterRises(cluster, m1, steps[1..], m');
    }
  }

  /**
   * No rollback over a whole run: once this instance wrote or confirmed a snapshot, every later
   * unforced takeover that confirms an authenticated one confirms one at least as new, and none
   * confirms a legacy one or starts from empty state.
   */
  lemma NeverBehind(cluster: string, m: Member, first: Step, steps: seq<Step>, m': Member, mark: Mark, sel: Selection)
    requires Runs(cluster, Apply(cluster, m, first), steps, m')
    requires m.disk == m.state && Saves(first) && AllSaved(steps) && Unforced(steps)
    requires first.Wrote? || first.Force? || (first.Take? && Done(PlanOf(cluster, m, first.sel), first.restored))
    requires mark == match first { case Wrote(k, _) => k case Force(k, _) => k case Take(s, _, _) => PlanOf(cluster, m, s).Confirms() case _ => ZERO }
    requires Before(ZERO, mark)
    requires PlanOf(cluster, m', sel).Proceeds()
    ensures var plan := PlanOf(cluster, m', sel); !plan.EmptyStart? && !plan.legacy && !Before(plan.Confirms(), mark)
  {
    var m1 := Apply(cluster, m, first);
    SavedStep(cluster, m, first);
    assert !Before(m1.state.HighWater(cluster), mark);
    HighWaterRises(cluster, m1, steps, m');
    SeenKept(cluster, m1, steps, m');
    ProceedsIffSafe(cluster, m'.id, m'.state, m'.pred, sel);
  }

  lemma {:induction false} SeenKept(cluster: string, m: Member, steps: seq<Step>, m': Member)
    requires Runs(cluster, m, steps, m') && m.disk == m.state && AllSaved(steps) && cluster in m.state.clusters
    ensures cluster in m'.state.clusters
    decreases |steps|
  {
    if steps != [] {
      SavedStep(cluster, m, steps[0]);
      SeenKept(cluster, Apply(cluster, m, steps[0]), steps[1..], m');
    }
  }

  /** How often a run starts from empty state. */
  ghost function EmptyStarts(cluster: string, m: Member, steps: seq<Step>): nat
    decreases |steps|
  {
    if steps == [] then 0
    else
      (if steps[0].Take? && PlanOf(cluster, m, steps[0].sel).EmptyStart? then 1 else 0)
      + EmptyStarts(cluster, Apply(cluster, m, steps[0]), steps[1..])
  }

  lemma {:induction false} NoEmptyStart(cluster: string, m: Member, steps: seq<Step>)
    requires m.disk == m.state && AllSaved(steps) && cluster in m.state.clusters
    ensures EmptyStarts(cluster, m, steps) == 0
    decreases |steps|
  {
    if steps != [] {
      SavedStep(cluster, m, steps[0]);
      NoEmptyStart(cluster, Apply(cluster, m, steps[0]), steps[1..]);
    }
  }

  /** With its saves succeeding, an instance starts from empty state at most once, forced takeovers and restarts included. */
  lemma {:induction false} EmptyStartOnce(cluster: string, m: Member, steps: seq<Step>)
    requires m.disk == m.state && AllSaved(steps)
    ensures EmptyStarts(cluster, m, steps) <= 1
    decreases |steps|
  {
    if steps != [] {
      var m1 := Apply(cluster, m, steps[0]);
      SavedStep(cluster, m, steps[0]);
      if cluster in m1.state.clusters {
        NoEmptyStart(cluster, m1, steps[1..]);
      } else {
        EmptyStartOnce(cluster, m1, steps[1..]);
      }
    }
  }

  // ---- prepareTakeover ----

  /** The request of an operator, when it can be used. */
  datatype Override = NoRequest | Unusable | Request(cluster: string, keepLocal: bool, mark: Mark)

  datatype Outcome = Refused(reason: Reason) | Failed | Ok

  /** The mark a forced takeover confirms, unless restoring the named snapshot fails. */
  function ForcedMark(o: Override, results: seq<Restore>, pauses: seq<bool>): Option<Mark>
    requires o.Request? && |results| == |pauses| == ATTEMPTS
  {
    if o.keepLocal then Some(ZERO)
    else match Retry(results, pauses, 0) { case None => None case Some(h) => Some(if h then o.mark else ZERO) }
  }

  /** The member whose takeover this is. */
  class Supervisor {
    const cluster: string
    var member: Member

    constructor (cluster: string, member: Member)
      ensures this.cluster == cluster && this.member == member
    {
      this.cluster := cluster;
      this.member := member;
    }

    /** confirmTakeover: kept tells whether the lease is still held after it was written. */
    method Confirm(mark: Mark, reset: bool, saved: bool, kept: bool) returns (ok: bool)
      modifies this
      ensures member == Confirmed(Update(old(member), old(member).state.Observe(cluster, mark, reset), saved), mark)
      ensures ok <==> old(member).active && kept
    {
      member := Update(member, member.state.Observe(cluster, mark, reset), saved);
      if !member.active { return false; }
      member := member.(signed := true, lease := member.lease.(mark := Later(member.lease.mark, mark)));
      ok := kept;
    }

    method ForceTakeover(o: Override, results: seq<Restore>, pauses: seq<bool>, saved: bool, kept: bool) returns (r: Outcome)
      requires o.Request? && |results| == |pauses| == ATTEMPTS
      modifies this
      ensures !r.Refused? && (r.Ok? <==> ForcedMark(o, results, pauses).Some? && old(member).active && kept)
      ensures member == if ForcedMark(o, results, pauses).Some? then Apply(cluster, old(member), Force(ForcedMark(o, results, pauses).value, saved))
                        else old(member)
    {
      var mark := ZERO;
      if !o.keepLocal {
        var h := RestoreWithRetry(results, pauses);
        if h.None? { return Failed; }
        if h.value { mark := o.mark; }
      }
      var ok := Confirm(mark, true, saved, kept);
      r := if ok then Ok else Failed;
    }

    /**
     * prepareTakeover, given the answers of the HA target to every attempt: an unforced
     * takeover is a Take step for the selection chosen, a forced one a Force step, and
     * everything else leaves the member as it was. pauses and rests tell which pauses of the
     * two retry loops ended normally.
     */
    method PrepareTakeover(o: Override, tries: seq<Attempt>, pauses: seq<bool>, results: seq<Restore>, rests: seq<bool>, saved: bool, kept: bool)
      returns (r: Outcome)
      requires |tries| == |pauses| == |results| == |rests| == ATTEMPTS
      modifies this
      ensures o.Request? && o.cluster == cluster ==>
                && (r.Ok? <==> ForcedMark(o, results, rests).Some? && old(member).active && kept)
                && member == (if ForcedMark(o, results, rests).Some?
                              then Apply(cluster, old(member), Force(ForcedMark(o, results, rests).value, saved)) else old(member))
      ensures !(o.Request? && o.cluster == cluster) ==>
                var c, restored := Choose(tries, pauses, 0), Retry(results, rests, 0).Some?;
                && (r.Ok? <==> c.Chosen? && Done(PlanOf(cluster, old(member), c.sel), restored) && old(member).active && kept)
                && (r.Refused? ==> c.Chosen? && PlanOf(cluster, old(member), c.sel) == Suspect(r.reason))
                && member == if c.Chosen? then Apply(cluster, old(member), Take(c.sel, restored, saved)) else old(member)
    {
      if o.Request? && o.cluster == cluster {
        r := ForceTakeover(o, results, rests, saved, kept);
        return;
      }
      var c := SelectForTakeover(tries, pauses);
      if c.NoChoice? { return Failed; }
      var plan := PlanOf(cluster, member, c.sel);
      if plan.Suspect? { return Refused(plan.reason); }
      if plan.Fail? { return Failed; }
      if plan.RestoreNewest? {
        var h := RestoreWithRetry(results, rests);
        if h.None? { return Failed; }
      }
      var ok := Confirm(plan.Confirms(), false, saved, kept);
      r := if ok then Ok else Failed;
    }
  }
}
