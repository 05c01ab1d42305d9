// Pruning of the login throttle is unobservable (internal/auth/throttle.go): the same
// calls get the same answers from a throttle that never drops an entry.
module ThrottlePruning {
  import opened LoginThrottle
  import opened ThrottleRuns

  /** The same call on a throttle that never prunes. */
  function Unpruned(u: State, step: Step): Step {
    match step
    case Reserving(pair, ip, now, _) => Reserving(pair, ip, now, u.table)
    case Settling(_, _, _) => step
    case Counting(key, free, window, now, _) => Counting(key, free, window, now, u.table)
  }

  function TableOf(s: State, step: Step): Table { if step.Settling? then s.table else step.pruned }

  /** The answers of a run. */
  function Answers(s: State, steps: seq<Step>): seq<int>
    decreases |steps|
  {
    if steps == [] then [] else [AnswerOf(steps[0], TableOf(s, steps[0]))] + Answers(Apply(s, steps[0]), steps[1..])
  }

  /** The answers of the throttle that never prunes to the same calls. */
  function ReferenceAnswers(u: State, steps: seq<Step>): seq<int>
    decreases |steps|
  {
    if steps == [] then []
    else [AnswerOf(steps[0], u.table)] + ReferenceAnswers(Apply(u, Unpruned(u, steps[0])), steps[1..])
  }

  /** The table stays below its limit after the first phase, and windows are remembered long enough. */
  predicate Mild(s: State, step: Step) {
    match step
    case Reserving(_, _, now, _) => FirstPhaseOnly(s.table, now)
    case Settling(_, _, _) => true
    case Counting(_, _, window, now, _) => FirstPhaseOnly(s.table, now) && window <= FORGET_AFTER
  }

  predicate AllMild(s: State, steps: seq<Step>)
    decreases |steps|
  {
    steps == [] || (Mild(s, steps[0]) && AllMild(Apply(s, steps[0]), steps[1..]))
  }

  // ---- Entries that answer alike ----

  predicate SameFailures(p: Entry, u: Entry) {
    p.failures == u.failures && (p.failures > 0 ==> p.lastFailure == u.lastFailure)
  }

  predicate SameLock(p: Entry, u: Entry, now: int) {
    p.lockedUntil == u.lockedUntil || (p.lockedUntil <= now && u.lockedUntil <= now)
  }

  /** Entries of a pair or an address: while attempts are open the counters themselves agree. */
  predicate SameAttempts(p: Entry, u: Entry, now: int) {
    && p.inFlight == u.inFlight && p.failures >= 0 && u.failures >= 0 && SameLock(p, u, now)
    && SameFailures(Forget(p, now), Forget(u, now))
    && (p.inFlight > 0 ==> SameFailures(p, u))
  }

  /** Entries of a counting window. */
  predicate SameWindow(p: Entry, u: Entry, now: int) {
    && u.windowStart <= u.lastFailure <= now
    && (|| (p.windowStart == u.windowStart && p.failures == u.failures && p.lastFailure == u.lastFailure)
        || (p.windowStart == 0 && now - u.lastFailure > FORGET_AFTER))
  }

  predicate Alike(t: Table, v: Table, k: Key, now: int) {
    if k.Counter? then SameWindow(Get(t, k), Get(v, k), now) else SameAttempts(Get(t, k), Get(v, k), now)
  }

  ghost predicate Related(s: State, u: State) {
    && s.tickets == u.tickets && s.clock == u.clock && s.clock >= 0
    && forall k :: Alike(s.table, u.table, k, s.clock)
  }

  lemma AlikeLater(t: Table, v: Table, k: Key, now: int, later: int)
    requires Alike(t, v, k, now) && now <= later
    ensures Alike(t, v, k, later)
  {
  }

  lemma DropsOnlyStale(t: Table, now: int, t': Table, k: Key)
    requires FirstPhaseOnly(t, now) && Pruned(t, now, t')
    ensures Get(t', k) == Get(t, k) || (k in t && Stale(t[k], now) && Get(t', k) == BLANK)
  {
  }

  lemma AlikePruned(t: Table, v: Table, k: Key, now: int, t': Table)
    requires Alike(t, v, k, now) && now >= 0 && FirstPhaseOnly(t, now) && Pruned(t, now, t')
    ensures Alike(t', v, k, now)
  {
    DropsOnlyStale(t, now, t', k);
  }

  lemma AlikeForget(p: Entry, u: Entry, now: int)
    requires SameAttempts(p, u, now)
    ensures SameAttempts(Forget(p, now), Forget(u, now), now) && SameFailures(Forget(p, now), Forget(u, now))
    ensures SameAttempts(Reserved(Forget(p, now)), Reserved(Forget(u, now)), now)
  {
  }

  lemma AlikeAnswer(t: Table, v: Table, pair: string, ip: string, now: int)
    requires Alike(t, v, Pair(pair), now) && Alike(t, v, Address(ip), now)
    ensures ReserveOn(t, pair, ip, now).1 == ReserveOn(v, pair, ip, now).1
  {
    AlikeForget(Get(t, Pair(pair)), Get(v, Pair(pair)), now);
    AlikeForget(Get(t, Address(ip)), Get(v, Address(ip)), now);
  }

  lemma AlikeReserve(t: Table, v: Table, pair: string, ip: string, now: int, k: Key)
    requires Alike(t, v, Pair(pair), now) && Alike(t, v, Address(ip), now) && Alike(t, v, k, now)
    ensures ReserveOn(t, pair, ip, now).1 == ReserveOn(v, pair, ip, now).1
    ensures Alike(ReserveOn(t, pair, ip, now).0, ReserveOn(v, pair, ip, now).0, k, now)
  {
    AlikeAnswer(t, v, pair, ip, now);
    var p, q := Get(t, Pair(pair)), Get(v, Pair(pair));
    AlikeForget(p, q, now);
    if !k.Counter? { AlikeForget(Get(t, k), Get(v, k), now); }
    ReserveWhere(t, pair, ip, now, k);
    ReserveWhere(v, pair, ip, now, k);
    assert p.inFlight == q.inFlight && (Forget(p, now).lockedUntil > now <==> Forget(q, now).lockedUntil > now);
  }

  /** The address is looked at when the pair itself may be reserved. */
  predicate LooksAtAddress(p: Entry, now: int) { Forget(p, now).lockedUntil <= now && p.inFlight < MAX_IN_FLIGHT_PER_PAIR }

  /** What Reserve leaves at a key. */
  lemma ReserveWhere(t: Table, pair: string, ip: string, now: int, k: Key)
    ensures var (t', answer) := ReserveOn(t, pair, ip, now);
            var e := Get(t, k);
            Get(t', k) ==
            if answer.Granted? && k in Keys(pair, ip) then Reserved(Forget(e, now))
            else if k == Pair(pair) || (ip != "" && k == Address(ip) && LooksAtAddress(Get(t, Pair(pair)), now)) then Forget(e, now)
            else e
  {
  }

  lemma AlikeRelease(t: Table, v: Table, pair: string, ip: string, now: int, k: Key)
    requires Alike(t, v, k, now) && k in Keys(pair, ip) && Get(t, k).inFlight > 0
    ensures var p, u := Get(Release(t, pair, ip), k), Get(Release(v, pair, ip), k);
            SameAttempts(p, u, now) && SameFailures(p, u)
  {
    ReleaseAt(t, pair, ip, k);
    ReleaseAt(v, pair, ip, k);
  }

  /** Two pair entries with the same counters fail alike. */
  lemma AlikeFailPair(p: Entry, u: Entry, budget: int, now: int)
    requires SameAttempts(p, u, now) && SameFailures(p, u)
    ensures SameAttempts(FailedPair(p, budget, now), FailedPair(u, budget, now), now)
  {
  }

  lemma AlikeFail(t: Table, v: Table, pair: string, ip: string, now: int)
    requires SameAttempts(Get(t, Pair(pair)), Get(v, Pair(pair)), now) && SameFailures(Get(t, Pair(pair)), Get(v, Pair(pair)))
    requires ip != "" ==> SameAttempts(Get(t, Address(ip)), Get(v, Address(ip)), now) && SameFailures(Get(t, Address(ip)), Get(v, Address(ip)))
    ensures forall k :: k in Keys(pair, ip) ==> SameAttempts(Get(FailAttempt(t, pair, ip, now), k), Get(FailAttempt(v, pair, ip, now), k), now)
    ensures forall k :: k !in Keys(pair, ip) ==> Get(FailAttempt(t, pair, ip, now), k) == Get(t, k) && Get(FailAttempt(v, pair, ip, now), k) == Get(v, k)
  {
    AlikeFailPair(Get(t, Pair(pair)), Get(v, Pair(pair)), FREE_ATTEMPTS, now);
    AlikeFailPair(Get(t, Pair(pair)), Get(v, Pair(pair)), NOISY_PAIR_BUDGET, now);
  }

  lemma AlikeSettle(t: Table, v: Table, pair: string, ip: string, o: Outcome, now: int, k: Key)
    requires now >= 0 && Alike(t, v, k, now) && (forall x :: x in Keys(pair, ip) ==> Alike(t, v, x, now) && Get(t, x).inFlight > 0)
    ensures Alike(SettleOn(t, pair, ip, o, now), SettleOn(v, pair, ip, o, now), k, now)
  {
    AlikeRelease(t, v, pair, ip, now, Pair(pair));
    if ip != "" { AlikeRelease(t, v, pair, ip, now, Address(ip)); }
    ReleaseAt(t, pair, ip, k);
    ReleaseAt(v, pair, ip, k);
    if o.Failed? { AlikeFail(Release(t, pair, ip), Release(v, pair, ip), pair, ip, now); }
  }

  lemma AlikeCount(t: Table, v: Table, key: string, free: int, window: int, now: Clock, k: Key)
    requires window <= FORGET_AFTER && Alike(t, v, Counter(key), now) && Alike(t, v, k, now)
    ensures CountFailureOn(t, key, free, window, now).1 == CountFailureOn(v, key, free, window, now).1
    ensures Alike(CountFailureOn(t, key, free, window, now).0, CountFailureOn(v, key, free, window, now).0, k, now)
  {
  }

  // ---- Runs ----

  /** Both throttles as the step's clock reading finds them. */
  lemma RelatedNow(s: State, u: State, step: Step, k: Key)
    requires Related(s, u) && Enabled(s, step) && Mild(s, step)
    ensures Alike(TableOf(s, step), u.table, k, TimeOf(step))
  {
    assert Alike(s.table, u.table, k, s.clock);
    AlikeLater(s.table, u.table, k, s.clock, TimeOf(step));
    if !step.Settling? { AlikePruned(s.table, u.table, k, TimeOf(step), step.pruned); }
  }

  lemma RelatedSettling(s: State, u: State, step: Step, k: Key)
    requires Related(s, u) && Flights(s) && Enabled(s, step) && step.Settling? && !s.tickets[step.i].settled
    ensures Alike(Apply(s, step).table, Apply(u, step).table, k, TimeOf(step))
  {
    var a := s.tickets[step.i];
    forall x | x in Keys(a.pair, a.ip)
      ensures Alike(s.table, u.table, x, TimeOf(step)) && Get(s.table, x).inFlight > 0
    {
      RelatedNow(s, u, step, x);
      assert FlightsMatch(s.table, s.tickets, x);
      OpenSettle(s.tickets, step.i, x);
    }
    RelatedNow(s, u, step, k);
    AlikeSettle(s.table, u.table, a.pair, a.ip, step.o, step.now, k);
  }

  lemma RelatedStep(s: State, u: State, step: Step)
    requires Related(s, u) && Flights(s) && Enabled(s, step) && Mild(s, step)
    ensures AnswerOf(step, TableOf(s, step)) == AnswerOf(step, u.table)
    ensures Related(Apply(s, step), Apply(u, Unpruned(u, step)))
  {
    var s', u' := Apply(s, step), Apply(u, Unpruned(u, step));
    match step
    case Reserving(pair, ip, now, pruned) =>
      RelatedNow(s, u, step, Pair(pair));
      RelatedNow(s, u, step, Address(ip));
      AlikeReserve(pruned, u.table, pair, ip, now, Pair(pair));
      forall k ensures Alike(s'.table, u'.table, k, s'.clock) {
        RelatedNow(s, u, step, k);
        AlikeReserve(pruned, u.table, pair, ip, now, k);
      }
    case Settling(i, o, now) =>
      forall k ensures Alike(s'.table, u'.table, k, s'.clock) {
        RelatedNow(s, u, step, k);
        if !s.tickets[i].settled { RelatedSettling(s, u, step, k); }
      }
    case Counting(key, free, window, now, pruned) =>
      RelatedNow(s, u, step, Counter(key));
      AlikeCount(pruned, u.table, key, free, window, now, Counter(key));
      forall k ensures Alike(s'.table, u'.table, k, s'.clock) {
        RelatedNow(s, u, step, k);
        AlikeCount(pruned, u.table, key, free, window, now, k);
      }
  }

  lemma {:induction false} SameAnswers(s: State, u: State, steps: seq<Step>, s': State)
    requires Related(s, u) && Flights(s) && Runs(s, steps, s') && AllMild(s, steps)
    ensures Answers(s, steps) == ReferenceAnswers(u, steps)
    decreases |steps|
  {
    if steps != [] {
      RelatedStep(s, u, steps[0]);
      FlightsStep(s, steps[0]);
      SameAnswers(Apply(s, steps[0]), Apply(u, Unpruned(u, steps[0])), steps[1..], s');
    }
  }

  /**
   * First-phase pruning is unobservable: while the table stays below its limit after
   * it and counting windows are at most FORGET_AFTER, every answer of a whole run is
   * that of the throttle that never prunes.
   */
  lemma PruningUnobservable(steps: seq<Step>, s: State)
    requires Runs(INIT, steps, s) && AllMild(INIT, steps)
    ensures Answers(INIT, steps) == ReferenceAnswers(INIT, steps)
  {
    InitFlights();
    assert Related(INIT, INIT);
    SameAnswers(INIT, INIT, steps, s);
  }
}
