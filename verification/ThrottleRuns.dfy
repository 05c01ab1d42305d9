// Every run of the login throttle (internal/auth/throttle.go): attempts are reserved,
// settled in any order and counted, the clock does not go back, and each operation that
// prunes may leave any table its map order allows.
module ThrottleRuns {
  import opened LoginThrottle

  datatype Ticket = Ticket(pair: string, ip: string, settled: bool)

  /** The throttle, the attempts handed out, and when a pair's first counted failure was. */
  datatype State = State(table: Table, tickets: seq<Ticket>, clock: int, first: map<string, int>)

  datatype Step =
    | Reserving(pair: string, ip: string, now: Clock, pruned: Table)
    | Settling(i: nat, o: Outcome, now: Clock)
    | Counting(key: string, free: int, window: int, now: Clock, pruned: Table)

  const INIT := State(map[], [], 0, map[])

  ghost predicate Enabled(s: State, step: Step) {
    match step
    case Reserving(_, _, now, pruned) => s.clock <= now && Pruned(s.table, now, pruned)
    case Settling(i, _, now) => s.clock <= now && i < |s.tickets|
    case Counting(_, _, _, now, pruned) => s.clock <= now && Pruned(s.table, now, pruned)
  }

  /** The first failure of a pair is remembered when its counter leaves 0. */
  function FirstFailures(s: State, pair: string, o: Outcome, now: int): map<string, int> {
    if o.Failed? && Get(s.table, Pair(pair)).failures == 0 then s.first[pair := now] else s.first
  }

  function Apply(s: State, step: Step): State {
    match step
    case Reserving(pair, ip, now, pruned) =>
      var (t, answer) := ReserveOn(pruned, pair, ip, now);
      State(t, if answer.Granted? then s.tickets + [Ticket(pair, ip, false)] else s.tickets, now, s.first)
    case Settling(i, o, now) =>
      if i >= |s.tickets| || s.tickets[i].settled then s.(clock := now)
      else
        var k := s.tickets[i];
        State(SettleOn(s.table, k.pair, k.ip, o, now), s.tickets[i := k.(settled := true)], now, FirstFailures(s, k.pair, o, now))
    case Counting(key, free, window, now, pruned) =>
      s.(table := CountFailureOn(pruned, key, free, window, now).0, clock := now)
  }

  /** The wait of a Reserve (0 when granted) or a CountFailure. */
  function AnswerOf(step: Step, t: Table): int {
    match step
    case Reserving(pair, ip, now, _) => var a := ReserveOn(t, pair, ip, now).1; if a.Granted? then 0 else a.d
    case Settling(_, _, _) => 0
    case Counting(key, free, window, now, _) => CountFailureOn(t, key, free, window, now).1
  }

  ghost predicate Runs(s: State, steps: seq<Step>, s': State)
    decreases |steps|
  {
    if steps == [] then s' == s else Enabled(s, steps[0]) && Runs(Apply(s, steps[0]), steps[1..], s')
  }

  // ---- In-flight counters ----

  predicate On(k: Ticket, key: Key) { !k.settled && key in Keys(k.pair, k.ip) }

  /** The unsettled attempts on a key. */
  function Open(tickets: seq<Ticket>, key: Key): nat {
    if tickets == [] then 0 else Open(tickets[..|tickets| - 1], key) + if On(tickets[|tickets| - 1], key) then 1 else 0
  }

  lemma OpenAppend(tickets: seq<Ticket>, k: Ticket, key: Key)
    ensures Open(tickets + [k], key) == Open(tickets, key) + if On(k, key) then 1 else 0
  {
    assert (tickets + [k])[..|tickets|] == tickets;
  }

  lemma {:induction false} OpenSettle(tickets: seq<Ticket>, i: nat, key: Key)
    requires i < |tickets|
    ensures Open(tickets, key) == Open(tickets[i := tickets[i].(settled := true)], key) + if On(tickets[i], key) then 1 else 0
  {
    var n := |tickets| - 1;
    var after := tickets[i := tickets[i].(settled := true)];
    if i == n {
      assert after[..n] == tickets[..n];
    } else {
      OpenSettle(tickets[..n], i, key);
      assert after[..n] == tickets[..n][i := tickets[i].(settled := true)];
    }
  }

  predicate FlightsMatch(t: Table, tickets: seq<Ticket>, k: Key) {
    Get(t, k).inFlight == Open(tickets, k) && (k.Pair? ==> Get(t, k).inFlight <= 1) && (k.Counter? ==> Get(t, k).inFlight == 0)
  }

  /** Each key's counter is its number of unsettled attempts, at most one per pair. */
  ghost predicate Flights(s: State) { forall k :: FlightsMatch(s.table, s.tickets, k) }

  lemma PruneKeepsBusy(t: Table, now: int, t': Table, k: Key)
    requires Pruned(t, now, t')
    ensures k in t' ==> k in t && t'[k] == t[k]
    ensures k in t && !Idle(t[k], now) ==> k in t'
    ensures Get(t', k).inFlight == Get(t, k).inFlight
  {
    if |t| >= MAX_TRACKED_KEYS / 2 {
      var recent := t - StaleKeys(t, now);
      if |recent| >= MAX_TRACKED_KEYS {
        var dropped :| DroppedIdle(recent, now, dropped, t');
      }
    }
  }

  lemma ReserveFlights(t: Table, pair: string, ip: string, now: int, k: Key)
    ensures var (t', answer) := ReserveOn(t, pair, ip, now);
            && Get(t', k).inFlight == Get(t, k).inFlight + (if answer.Granted? && k in Keys(pair, ip) then 1 else 0)
            && (answer.Granted? ==> Get(t, Pair(pair)).inFlight == 0)
  {
  }

  lemma FlightsReserving(s: State, step: Step, k: Key)
    requires Enabled(s, step) && step.Reserving? && FlightsMatch(s.table, s.tickets, k)
    ensures FlightsMatch(Apply(s, step).table, Apply(s, step).tickets, k)
  {
    PruneKeepsBusy(s.table, step.now, step.pruned, k);
    ReserveFlights(step.pruned, step.pair, step.ip, step.now, k);
    OpenAppend(s.tickets, Ticket(step.pair, step.ip, false), k);
  }

  lemma ReleaseAt(t: Table, pair: string, ip: string, k: Key)
    ensures Get(Release(t, pair, ip), k) == if k in Keys(pair, ip) then Dec(Get(t, k)) else Get(t, k)
  {
  }

  lemma SettleFlights(t: Table, pair: string, ip: string, o: Outcome, now: int, k: Key)
    requires Get(t, Pair(pair)).inFlight <= 1
    ensures Get(SettleOn(t, pair, ip, o, now), k).inFlight == Get(Release(t, pair, ip), k).inFlight
  {
    ReleaseAt(t, pair, ip, Pair(pair));
  }

  lemma FlightsSettling(s: State, step: Step, k: Key)
    requires Enabled(s, step) && step.Settling? && !s.tickets[step.i].settled && FlightsMatch(s.table, s.tickets, k)
    requires FlightsMatch(s.table, s.tickets, Pair(s.tickets[step.i].pair))
    ensures FlightsMatch(Apply(s, step).table, Apply(s, step).tickets, k)
  {
    var a := s.tickets[step.i];
    OpenSettle(s.tickets, step.i, k);
    SettleFlights(s.table, a.pair, a.ip, step.o, step.now, k);
    ReleaseAt(s.table, a.pair, a.ip, k);
  }

  lemma FlightsCounting(s: State, step: Step, k: Key)
    requires Enabled(s, step) && step.Counting? && FlightsMatch(s.table, s.tickets, k)
    ensures FlightsMatch(Apply(s, step).table, Apply(s, step).tickets, k)
  {
    PruneKeepsBusy(s.table, step.now, step.pruned, k);
  }

  lemma FlightsStep(s: State, step: Step)
    requires Flights(s) && Enabled(s, step)
    ensures Flights(Apply(s, step))
  {
    forall k
      ensures FlightsMatch(Apply(s, step).table, Apply(s, step).tickets, k)
    {
      assert FlightsMatch(s.table, s.tickets, k);
      match step
      case Reserving(_, _, _, _) => FlightsReserving(s, step, k);
      case Settling(i, _, _) =>
        if !s.tickets[i].settled {
          assert FlightsMatch(s.table, s.tickets, Pair(s.tickets[i].pair));
          FlightsSettling(s, step, k);
        }
      case Counting(_, _, _, _, _) => FlightsCounting(s, step, k);
    }
  }

  /** In every run inFlight is the number of unsettled attempts, at most one per pair. */
  lemma {:induction false} RunsFlights(s: State, steps: seq<Step>, s': State)
    requires Flights(s) && Runs(s, steps, s')
    ensures Flights(s')
    decreases |steps|
  {
    if steps != [] {
      FlightsStep(s, steps[0]);
      RunsFlights(Apply(s, steps[0]), steps[1..], s');
    }
  }

  lemma InitFlights()
    ensures Flights(INIT)
  {
  }

  // ---- A lockout lasts ----

  /** The pair cannot be reserved before until: it is locked, and no attempt of it is open. */
  predicate LockedOut(s: State, pair: string, until: int) {
    Pair(pair) in s.table && s.table[Pair(pair)].lockedUntil >= until && s.table[Pair(pair)].inFlight == 0
  }

  function TimeOf(step: Step): int { step.now }

  lemma LockedStep(s: State, step: Step, pair: string, until: int)
    requires Flights(s) && LockedOut(s, pair, until) && Enabled(s, step) && TimeOf(step) < until
    ensures LockedOut(Apply(s, step), pair, until)
    ensures step.Reserving? && step.pair == pair ==> AnswerOf(step, step.pruned) > 0
  {
    match step
    case Reserving(p, _, now, pruned) => PruneKeepsBusy(s.table, now, pruned, Pair(pair));
    case Counting(_, _, _, now, pruned) => PruneKeepsBusy(s.table, now, pruned, Pair(pair));
    case Settling(i, o, now) =>
      var a := s.tickets[i];
      if !a.settled {
        assert FlightsMatch(s.table, s.tickets, Pair(pair));
        if a.pair == pair {
          OpenSettle(s.tickets, i, Pair(pair));
          assert false;
        }
        SettleOther(s.table, a.pair, a.ip, o, now, pair);
      }
  }

  lemma SettleOther(t: Table, pair: string, ip: string, o: Outcome, now: int, other: string)
    requires pair != other
    ensures Pair(other) in t ==> Pair(other) in SettleOn(t, pair, ip, o, now)
    ensures Get(SettleOn(t, pair, ip, o, now), Pair(other)) == Get(t, Pair(other))
  {
    ReleaseAt(t, pair, ip, Pair(other));
  }

  /**
   * Once a failure locked a pair until a time, no Reserve for it is granted before
   * then, whatever other attempts settle and whichever prune phase runs.
   */
  lemma {:induction false} LockoutHolds(s: State, steps: seq<Step>, s': State, pair: string, until: int)
    requires Flights(s) && LockedOut(s, pair, until) && Runs(s, steps, s')
    requires forall i :: 0 <= i < |steps| ==> TimeOf(steps[i]) < until
    ensures LockedOut(s', pair, until)
    ensures forall i :: 0 <= i < |steps| && steps[i].Reserving? && steps[i].pair == pair ==> AnswerOf(steps[i], steps[i].pruned) > 0
    decreases |steps|
  {
    if steps != [] {
      LockedStep(s, steps[0], pair, until);
      FlightsStep(s, steps[0]);
      LockoutHolds(Apply(s, steps[0]), steps[1..], s', pair, until);
      forall i | 0 <= i < |steps| && steps[i].Reserving? && steps[i].pair == pair
        ensures AnswerOf(steps[i], steps[i].pruned) > 0
      {
        if i > 0 { assert steps[1..][i - 1] == steps[i]; }
      }
    }
  }

  /** The address of an attempt is noisy once this failure is counted. */
  predicate Noisy(t: Table, ip: string) { ip != "" && Get(t, Address(ip)).failures + 1 >= IP_FREE_ATTEMPTS }

  /**
   * A failure that exhausts the budget of its pair, one failure while the address is noisy and
   * FREE_ATTEMPTS else, locks the pair for the lockout of the failures beyond it; any other
   * failure leaves the lock as it was.
   */
  lemma FailureLocks(s: State, i: nat, now: Clock)
    requires Flights(s) && s.clock <= now && i < |s.tickets| && !s.tickets[i].settled
    ensures var pair, budget := s.tickets[i].pair, Budget(Noisy(s.table, s.tickets[i].ip));
            var s' := Apply(s, Settling(i, Failed, now));
            var n := Get(s.table, Pair(pair)).failures + 1;
            && Get(s'.table, Pair(pair)).failures == n
            && (if n >= budget then LockedOut(s', pair, now + LockoutFor(n - budget)) && Get(s'.table, Pair(pair)).lockedUntil == now + LockoutFor(n - budget)
                else Get(s'.table, Pair(pair)).lockedUntil == Get(s.table, Pair(pair)).lockedUntil)
  {
    var a := s.tickets[i];
    assert FlightsMatch(s.table, s.tickets, Pair(a.pair));
    ReleaseAt(s.table, a.pair, a.ip, Pair(a.pair));
    ReleaseAt(s.table, a.pair, a.ip, Address(a.ip));
  }

  // ---- The failure rate ----

  /** The lockouts of n failures beyond the free ones. */
  function LockoutSum(n: nat): int { if n == 0 then 0 else LockoutSum(n - 1) + LockoutFor(n - 1) }

  /** How much time n failures of a pair must have taken. */
  function Spread(n: int): int { if n <= FREE_ATTEMPTS then 0 else LockoutSum(n - FREE_ATTEMPTS) }

  /** A pair's entry is as old as its failures need, locked for the next one, and reserved only after that. */
  ghost predicate Paced(s: State, pair: string) {
    var e := Get(s.table, Pair(pair));
    && e.failures >= 0 && e.lastFailure <= s.clock
    && (e.failures > 0 ==> pair in s.first && e.lastFailure - s.first[pair] >= Spread(e.failures))
    && (e.failures >= FREE_ATTEMPTS ==> e.lockedUntil >= e.lastFailure + LockoutFor(e.failures - FREE_ATTEMPTS))
    && (e.inFlight > 0 ==> e.lockedUntil <= s.clock)
  }

  /** What Reserve does to the entry of a pair. */
  lemma ReservePair(t: Table, p: string, ip: string, now: int, pair: string)
    ensures var e, e' := Get(t, Pair(pair)), Get(ReserveOn(t, p, ip, now).0, Pair(pair));
            && (e' == e.(inFlight := e'.inFlight) || e' == e.(inFlight := e'.inFlight, failures := 0))
            && (e'.inFlight > e.inFlight ==> e.lockedUntil <= now)
            && (e'.inFlight == e.inFlight || e'.inFlight == e.inFlight + 1)
  {
  }

  lemma PacedReserving(s: State, step: Step, pair: string)
    requires s.clock >= 0 && Paced(s, pair) && step.Reserving? && Enabled(s, step)
    ensures Paced(Apply(s, step), pair)
  {
    PruneKeepsBusy(s.table, step.now, step.pruned, Pair(pair));
    ReservePair(step.pruned, step.pair, step.ip, step.now, pair);
  }

  /** Whatever the budget, a failure beyond the free ones locks at least for its share. */
  lemma LocksAtLeast(s: State, i: nat, now: Clock)
    requires Flights(s) && s.clock <= now && i < |s.tickets| && !s.tickets[i].settled
    ensures var s' := Apply(s, Settling(i, Failed, now));
            var e := Get(s'.table, Pair(s.tickets[i].pair));
            && e.failures == Get(s.table, Pair(s.tickets[i].pair)).failures + 1 && e.inFlight == 0 && e.lastFailure == now
            && (e.failures >= FREE_ATTEMPTS ==> e.lockedUntil >= now + LockoutFor(e.failures - FREE_ATTEMPTS))
  {
    FailureLocks(s, i, now);
    var a := s.tickets[i];
    assert FlightsMatch(s.table, s.tickets, Pair(a.pair));
    ReleaseAt(s.table, a.pair, a.ip, Pair(a.pair));
    var n := Get(s.table, Pair(a.pair)).failures + 1;
    if n >= FREE_ATTEMPTS { LockoutMonotone(n - FREE_ATTEMPTS, n - NOISY_PAIR_BUDGET); }
  }

  lemma PacedFailure(s: State, i: nat, now: Clock, pair: string)
    requires Flights(s) && Paced(s, pair) && s.clock <= now && i < |s.tickets| && !s.tickets[i].settled && s.tickets[i].pair == pair
    ensures Paced(Apply(s, Settling(i, Failed, now)), pair)
  {
    LocksAtLeast(s, i, now);
    assert FlightsMatch(s.table, s.tickets, Pair(pair));
    OpenSettle(s.tickets, i, Pair(pair));
  }

  lemma PacedSettling(s: State, step: Step, pair: string)
    requires s.clock >= 0 && Flights(s) && Paced(s, pair) && step.Settling? && Enabled(s, step)
    ensures Paced(Apply(s, step), pair)
  {
    var a := s.tickets[step.i];
    if !a.settled {
      if a.pair != pair {
        SettleOther(s.table, a.pair, a.ip, step.o, step.now, pair);
      } else if step.o.Failed? {
        PacedFailure(s, step.i, step.now, pair);
      } else {
        ReleaseAt(s.table, a.pair, a.ip, Pair(pair));
      }
    }
  }

  ghost predicate AllPaced(s: State) { s.clock >= 0 && forall pair :: Paced(s, pair) }

  lemma PacedStep(s: State, step: Step)
    requires Flights(s) && AllPaced(s) && Enabled(s, step)
    ensures AllPaced(Apply(s, step))
  {
    forall pair
      ensures Paced(Apply(s, step), pair)
    {
      assert Paced(s, pair);
      match step
      case Reserving(_, _, _, _) => PacedReserving(s, step, pair);
      case Settling(_, _, _) => PacedSettling(s, step, pair);
      case Counting(_, _, _, now, pruned) => PruneKeepsBusy(s.table, now, pruned, Pair(pair));
    }
  }

  lemma {:induction false} RunsPaced(s: State, steps: seq<Step>, s': State)
    requires Flights(s) && AllPaced(s) && Runs(s, steps, s')
    ensures AllPaced(s')
    decreases |steps|
  {
    if steps != [] {
      FlightsStep(s, steps[0]);
      PacedStep(s, steps[0]);
      RunsPaced(Apply(s, steps[0]), steps[1..], s');
    }
  }

  /**
   * The failure-rate bound: in every run, a pair whose counter reads n has spent at
   * least the lockouts of its failures beyond the free ones since its first counted
   * failure, however often its address turned noisy in between.
   */
  lemma FailureRate(steps: seq<Step>, s: State, pair: string)
    requires Runs(INIT, steps, s)
    ensures var n := Get(s.table, Pair(pair)).failures;
            n > 0 ==> pair in s.first && s.clock - s.first[pair] >= Spread(n)
  {
    InitFlights();
    assert AllPaced(INIT);
    RunsPaced(INIT, steps, s);
    assert Paced(s, pair);
  }
}
