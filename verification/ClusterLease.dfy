// The takeovers of a whole HA cluster over one lease object (internal/ha/manager.go,
// internal/app/ha_handover.go). The lease object is written by compare-and-swap only;
// which snapshots the HA target shows at any moment is arbitrary, answers to writes may
// be lost, members restart and their saves may fail.
module ClusterLease {
  import opened Decimal
  import opened Snapshots
  import opened Takeover

  /**
   * The members, the stored lease, the member whose version of it is current, and whether
   * that member's takeover is behind it. newest is the newest snapshot an authentic stored
   * lease has named so far, and signed whether there was one.
   */
  datatype Cluster = Cluster(name: string, members: seq<Member>, stored: Option<Stored>, holder: Option<nat>, settled: bool,
                             newest: Mark, signed: bool)

  datatype Move =
    | ReadLease(i: nat)
    | Acquire(i: nat, epoch: nat, answered: bool)
    | Renew(i: nat, answered: bool)
    | Take(i: nat, sel: Selection, restored: bool, saved: bool)
    | Force(i: nat, mark: Mark, saved: bool)
    | Wrote(i: nat, mark: Mark, saved: bool)
    | Note(i: nat, step: Step)
    | Leave(i: nat, restart: bool)

  predicate Enabled(c: Cluster, move: Move) {
    && move.i < |c.members|
    && match move
       case ReadLease(_) => c.stored.Some?
       case Acquire(_, _, _) => true
       case Renew(i, _) => c.holder == Some(i)
       case Take(_, _, _, _) => true
       case Force(_, _, _) => true
       case Wrote(i, _, _) => c.holder == Some(i) ==> c.settled
       case Note(_, step) => step.ObserveCluster? || step.SawAuthentic? || step.RecordEpoch?
       case Leave(_, _) => true
  }

  /** The lease as a member writes it. */
  function Written(m: Member): Stored { if m.signed then Signed(m.lease) else Unsigned(m.lease) }

  /** The stored lease becomes the one of m. */
  function Write(c: Cluster, m: Member): Cluster {
    c.(stored := Some(Written(m)), newest := if m.signed then Later(c.newest, m.lease.mark) else c.newest, signed := c.signed || m.signed)
  }

  function With(c: Cluster, i: nat, step: Step): Cluster
    requires i < |c.members|
  {
    c.(members := c.members[i := Apply(c.name, c.members[i], step)])
  }

  function Next(c: Cluster, move: Move): Cluster
    requires Enabled(c, move)
  {
    var i := move.i;
    match move
    case ReadLease(_) => With(c, i, Step.ReadLease(c.stored.value))
    case Acquire(_, epoch, answered) =>
      var m := Apply(c.name, c.members[i], Step.Acquire(c.stored, epoch));
      if answered then Write(c, m).(members := c.members[i := m], holder := Some(i), settled := false)
      else Write(c, m).(holder := None, settled := false)
    case Renew(_, answered) => if answered then Write(c, c.members[i]) else Write(c, c.members[i]).(holder := None)
    case Take(_, sel, restored, saved) =>
      var done := Done(PlanOf(c.name, c.members[i], sel), restored);
      With(c, i, Step.Take(sel, restored, saved)).(settled := c.settled || (c.holder == Some(i) && done))
    case Force(_, mark, saved) => With(c, i, Step.Force(mark, saved)).(settled := c.settled || c.holder == Some(i))
    case Wrote(_, mark, saved) => With(c, i, Step.Wrote(mark, saved))
    case Note(_, step) => With(c, i, step)
    case Leave(_, restart) => With(c, i, if restart then Restart else StepDown).(holder := if c.holder == Some(i) then None else c.holder)
  }

  ghost predicate Runs(c: Cluster, moves: seq<Move>, c': Cluster)
    decreases |moves|
  {
    if moves == [] then c == c' else Enabled(c, moves[0]) && Runs(Next(c, moves[0]), moves[1..], c')
  }

  /** A cluster without a lease, whose members have read none. */
  ghost predicate Init(c: Cluster) {
    && c.stored == None && c.holder == None && c.newest == ZERO && !c.signed
    && forall i :: 0 <= i < |c.members| ==> c.members[i].seenMark == ZERO
  }

  // ---- The invariant ----

  ghost predicate StoredInv(c: Cluster) {
    if c.signed then c.stored.Some? && c.stored.value.Signed? && c.stored.value.lease.mark == c.newest && !Before(c.newest, ZERO)
    else c.newest == ZERO && (c.stored.Some? ==> c.stored.value.Unsigned?)
  }

  ghost predicate SeenInv(c: Cluster) {
    forall i :: 0 <= i < |c.members| ==> !Before(c.newest, c.members[i].seenMark) && !Before(c.members[i].seenMark, ZERO)
  }

  ghost predicate HolderInv(c: Cluster) {
    c.holder.Some? ==>
      && c.holder.value < |c.members|
      && var m := c.members[c.holder.value];
         && m.active && c.stored.Some?
         && (c.signed ==> m.signed && !Before(m.lease.mark, c.newest))
         && !Before(m.lease.mark, ZERO)
         && (!c.settled ==> !Before(m.pred.mark, c.newest) && m.lease.mark == m.pred.mark && (c.signed ==> m.pred.trust == Authentic))
         && (!c.settled && !c.signed ==> !m.signed)
  }

  ghost predicate Inv(c: Cluster) { StoredInv(c) && SeenInv(c) && HolderInv(c) }

  lemma AcquireKeeps(c: Cluster, move: Move)
    requires Inv(c) && Enabled(c, move) && move.Acquire?
    ensures Inv(Next(c, move))
  {
    var m := c.members[move.i];
    assert !Before(c.newest, m.seenMark);
  }

  lemma RenewKeeps(c: Cluster, move: Move)
    requires Inv(c) && Enabled(c, move) && move.Renew?
    ensures Inv(Next(c, move))
  {
  }

  lemma TakeKeeps(c: Cluster, move: Move)
    requires Inv(c) && Enabled(c, move) && (move.Take? || move.Force? || move.Wrote?)
    ensures Inv(Next(c, move))
  {
    var i := move.i;
    var c' := Next(c, move);
    assert c'.members[i].seenMark == c.members[i].seenMark;
  }

  lemma OtherKeeps(c: Cluster, move: Move)
    requires Inv(c) && Enabled(c, move) && (move.ReadLease? || move.Note? || move.Leave?)
    ensures Inv(Next(c, move))
  {
    var i := move.i;
    var c' := Next(c, move);
    assert !Before(c.newest, c'.members[i].seenMark);
  }

  lemma InvStep(c: Cluster, move: Move)
    requires Inv(c) && Enabled(c, move)
    ensures Inv(Next(c, move)) && !Before(Next(c, move).newest, c.newest)
    ensures Next(c, move).name == c.name
  {
    match move
    case Acquire(_, _, _) => AcquireKeeps(c, move);
    case Renew(_, _) => RenewKeeps(c, move);
    case Take(_, _, _, _) => TakeKeeps(c, move);
    case Force(_, _, _) => TakeKeeps(c, move);
    case Wrote(_, _, _) => TakeKeeps(c, move);
    case ReadLease(_) => OtherKeeps(c, move);
    case Note(_, _) => OtherKeeps(c, move);
    case Leave(_, _) => OtherKeeps(c, move);
  }

  /** In every run the invariant holds, and the newest snapshot named never gets older. */
  lemma {:induction false} RunsInv(c: Cluster, moves: seq<Move>, c': Cluster)
    requires Inv(c) && Runs(c, moves, c')
    ensures Inv(c') && !Before(c'.newest, c.newest)
    decreases |moves|
  {
    if moves != [] {
      InvStep(c, moves[0]);
      RunsInv(Next(c, moves[0]), moves[1..], c');
    }
  }

  /** A cluster of one new member. */
  function Fresh(name: string, id: string): Cluster {
    var state := State("", 0, map[], {});
    Cluster(name, [Member(id, state, state, ZERO, false, Predecessor(Absent, false, Lease(0, ZERO), ZERO), Lease(0, ZERO), false)], None, None, false, ZERO, false)
  }

  /** Runs start somewhere: a new cluster is an initial state, and keeps the invariant. */
  lemma FreshHolds(name: string, id: string)
    ensures Init(Fresh(name, id)) && Inv(Fresh(name, id))
  {
  }

  lemma Prepended(c: Cluster, move: Move, moves: seq<Move>, c': Cluster)
    requires Enabled(c, move) && Runs(Next(c, move), moves, c')
    ensures Runs(c, [move] + moves, c')
  {
    assert ([move] + moves)[1..] == moves;
  }

  /** A new cluster starts from empty state, and the first snapshot its member writes is the newest its lease names. */
  lemma FirstSnapshot(name: string, id: string, epoch: nat, sel: Selection, mark: Mark) returns (moves: seq<Move>, c: Cluster)
    requires sel.listed == 0 && !Before(mark, ZERO)
    ensures Init(Fresh(name, id)) && Runs(Fresh(name, id), moves, c)
    ensures c.holder == Some(0) && c.settled && c.signed && c.newest == mark && c.stored == Some(Signed(Lease(epoch, mark)))
  {
    FreshHolds(name, id);
    var c1 := Next(Fresh(name, id), Move.Acquire(0, epoch, true));
    var c2 := Next(c1, Move.Take(0, sel, true, true));
    var c3 := Next(c2, Move.Wrote(0, mark, true));
    c := Next(c3, Renew(0, true));
    moves := [];
    Prepended(c3, Renew(0, true), moves, c);
    moves := [Renew(0, true)] + moves;
    Prepended(c2, Move.Wrote(0, mark, true), moves, c);
    moves := [Move.Wrote(0, mark, true)] + moves;
    Prepended(c1, Move.Take(0, sel, true, true), moves, c);
    moves := [Move.Take(0, sel, true, true)] + moves;
    Prepended(Fresh(name, id), Move.Acquire(0, epoch, true), moves, c);
    moves := [Move.Acquire(0, epoch, true)] + moves;
  }

  // ---- No rollback ----

  lemma HolderPlan(c: Cluster, i: nat, sel: Selection)
    requires Inv(c) && c.holder == Some(i) && !c.settled && PlanOf(c.name, c.members[i], sel).Proceeds()
    ensures !Before(PlanOf(c.name, c.members[i], sel).Confirms(), c.newest)
  {
    ProceedsIffSafe(c.name, c.members[i].id, c.members[i].state, c.members[i].pred, sel);
  }

  /**
   * No takeover of the cluster rolls its metadata back: whichever member takes over, whatever
   * the HA target shows it and whatever happened before, an unforced takeover of the member
   * that holds the lease confirms a snapshot at least as new as the newest one any authentic
   * lease ever named. With nothing named so far it may confirm none.
   */
  lemma ClusterNeverRollsBack(c0: Cluster, moves: seq<Move>, c: Cluster, i: nat, sel: Selection)
    requires Init(c0) && Runs(c0, moves, c) && c.holder == Some(i) && i < |c.members| && !c.settled
    requires PlanOf(c.name, c.members[i], sel).Proceeds()
    ensures !Before(PlanOf(c.name, c.members[i], sel).Confirms(), c.newest)
  {
    RunsInv(c0, moves, c);
    HolderPlan(c, i, sel);
  }

  /** A snapshot that its writer named in a signed, stored lease binds every later unforced takeover. */
  lemma RecordedBinds(c0: Cluster, before: seq<Move>, c1: Cluster, renew: Move, after: seq<Move>, c2: Cluster, i: nat, sel: Selection)
    requires Init(c0) && Runs(c0, before, c1)
    requires renew.Renew? && Enabled(c1, renew) && c1.members[renew.i].signed
    requires Runs(Next(c1, renew), after, c2) && c2.holder == Some(i) && i < |c2.members| && !c2.settled
    requires PlanOf(c2.name, c2.members[i], sel).Proceeds()
    ensures !Before(PlanOf(c2.name, c2.members[i], sel).Confirms(), c1.members[renew.i].lease.mark)
  {
    RunsInv(c0, before, c1);
    InvStep(c1, renew);
    RunsInv(Next(c1, renew), after, c2);
    HolderPlan(c2, i, sel);
  }
}
