// The login throttle (internal/auth/throttle.go). Times are nanoseconds after the zero
// time; keys carry the prefix their callers give them, so pair, address and counting
// keys are different keys.
module LoginThrottle {
  import opened Numbers
  import Calendar

  const FREE_ATTEMPTS: int := 5
  const LOCKOUT_BASE: int := 30 * Calendar.SECOND
  const MAX_LOCKOUT: int := 900 * Calendar.SECOND
  const FORGET_AFTER: int := 1800 * Calendar.SECOND
  const MAX_TRACKED_KEYS: nat := 10000
  const IP_FREE_ATTEMPTS: int := 4 * FREE_ATTEMPTS
  const NOISY_PAIR_BUDGET: int := 1
  const MAX_IN_FLIGHT_PER_PAIR: nat := 1
  const MAX_IN_FLIGHT_PER_IP: nat := 4
  const BUSY_RETRY: int := Calendar.SECOND

  /** Readings of the clock: the zero time lies longer ago than failures are remembered. */
  type Clock = t: int | t > FORGET_AFTER witness FORGET_AFTER + 1

  datatype Key = Pair(name: string) | Address(ip: string) | Counter(name: string)

  datatype Entry = Entry(failures: int, inFlight: nat, lockedUntil: int, lastFailure: int, windowStart: int)

  const BLANK := Entry(0, 0, 0, 0, 0)

  type Table = map<Key, Entry>

  function Get(t: Table, k: Key): Entry { if k in t then t[k] else BLANK }

  // ---- Lockouts ----

  function LockoutFor(over: nat): int {
    if over >= 16 then MAX_LOCKOUT else Min(LOCKOUT_BASE * Pow2(over), MAX_LOCKOUT)
  }

  /** The shortcut for many failures changes nothing: 30 s doubled, capped at 15 minutes. */
  lemma LockoutIsCappedDoubling(over: nat)
    ensures LockoutFor(over) == Min(LOCKOUT_BASE * Pow2(over), MAX_LOCKOUT)
  {
    Pow2Grows(5, 16);
    if over >= 16 { Pow2Grows(16, over); }
    assert Pow2(5) == 32;
  }

  lemma LockoutMonotone(m: nat, n: nat)
    requires m <= n
    ensures 0 < LockoutFor(m) <= LockoutFor(n) <= MAX_LOCKOUT
  {
    LockoutIsCappedDoubling(m);
    LockoutIsCappedDoubling(n);
    Pow2Grows(m, n);
  }

  // ---- Entries ----

  /** forgetStaleLocked applies. */
  predicate Forgettable(e: Entry, now: int) {
    e.failures > 0 && now >= e.lockedUntil && now - e.lastFailure > FORGET_AFTER
  }

  function Forget(e: Entry, now: int): Entry { if Forgettable(e, now) then e.(failures := 0) else e }

  /** An entry the first prune phase drops. */
  predicate Stale(e: Entry, now: int) { Idle(e, now) && now - e.lastFailure > FORGET_AFTER }

  /** An entry the second prune phase drops. */
  predicate Idle(e: Entry, now: int) { e.inFlight == 0 && now > e.lockedUntil }

  function StaleKeys(t: Table, now: int): set<Key> { set k | k in t && Stale(t[k], now) }

  function IdleKeys(t: Table, now: int): set<Key> { set k | k in t && Idle(t[k], now) }

  /** pruneLocked: what may be left of t. The second phase stops early in map order. */
  ghost predicate Pruned(t: Table, now: int, t': Table) {
    if |t| < MAX_TRACKED_KEYS / 2 then t' == t
    else
      var recent := t - StaleKeys(t, now);
      if |recent| < MAX_TRACKED_KEYS then t' == recent
      else exists dropped :: DroppedIdle(recent, now, dropped, t')
  }

  ghost predicate DroppedIdle(t: Table, now: int, dropped: set<Key>, t': Table) {
    && dropped <= IdleKeys(t, now) && t' == t - dropped
    && (dropped == IdleKeys(t, now) || |t'| < MAX_TRACKED_KEYS / 2)
  }

  lemma DropOne(t: Table, now: int, left: set<Key>, k: Key)
    requires left <= t.Keys && k in left
    ensures k in t - (IdleKeys(t, now) - left)
    ensures IdleKeys(t, now) - (left - {k}) == IdleKeys(t, now) - left + if Idle(t[k], now) then {k} else {}
    ensures t - (IdleKeys(t, now) - left) - {k} == t - (IdleKeys(t, now) - left + {k})
  {
  }

  /** The first phase was enough. */
  predicate FirstPhaseOnly(t: Table, now: int) {
    |t| < MAX_TRACKED_KEYS / 2 || |t - StaleKeys(t, now)| < MAX_TRACKED_KEYS
  }

  // ---- The operations on a pruned table ----

  datatype Answer = Granted | Wait(d: int)

  /** The entry of a successful reservation. */
  function Reserved(e: Entry): Entry { e.(inFlight := e.inFlight + 1) }

  /** The keys an attempt for pair and ip counts on; an empty ip is no address. */
  function Keys(pair: string, ip: string): set<Key> { {Pair(pair)} + if ip == "" then {} else {Address(ip)} }

  /** Reserve, after pruning. */
  function ReserveOn(t: Table, pair: string, ip: string, now: int): (Table, Answer) {
    var p := Forget(Get(t, Pair(pair)), now);
    var t1 := t[Pair(pair) := p];
    if p.lockedUntil - now > 0 then (t1, Wait(p.lockedUntil - now))
    else if p.inFlight >= MAX_IN_FLIGHT_PER_PAIR then (t1, Wait(BUSY_RETRY))
    else if ip == "" then (t[Pair(pair) := Reserved(p)], Granted)
    else
      var i := Forget(Get(t, Address(ip)), now);
      if p.failures > 0 && i.inFlight >= MAX_IN_FLIGHT_PER_IP then (t1[Address(ip) := i], Wait(BUSY_RETRY))
      else (t[Pair(pair) := Reserved(p)][Address(ip) := Reserved(i)], Granted)
  }

  function Dec(e: Entry): Entry { if e.inFlight > 0 then e.(inFlight := e.inFlight - 1) else e }

  function ReleaseKey(t: Table, k: Key): Table { if k in t then t[k := Dec(t[k])] else t }

  /** releaseLocked. */
  function Release(t: Table, pair: string, ip: string): Table {
    var t1 := ReleaseKey(t, Pair(pair));
    if ip == "" then t1 else ReleaseKey(t1, Address(ip))
  }

  function FailedAddress(e: Entry, now: int): Entry { e.(failures := e.failures + 1, lastFailure := now) }

  /** The budget of a pair: one failure while its address is noisy. */
  function Budget(noisy: bool): int { if noisy then NOISY_PAIR_BUDGET else FREE_ATTEMPTS }

  function FailedPair(e: Entry, budget: int, now: int): Entry {
    var n := e.failures + 1;
    e.(failures := n, lastFailure := now, lockedUntil := if n - budget >= 0 then now + LockoutFor(n - budget) else e.lockedUntil)
  }

  datatype Outcome = Succeeded | Failed | Released

  function FailAttempt(t: Table, pair: string, ip: string, now: int): Table {
    var t1 := if ip == "" then t else t[Address(ip) := FailedAddress(Get(t, Address(ip)), now)];
    var noisy := ip != "" && t1[Address(ip)].failures >= IP_FREE_ATTEMPTS;
    t1[Pair(pair) := FailedPair(Get(t1, Pair(pair)), Budget(noisy), now)]
  }

  /** Succeeded, Failed and Released of an attempt. */
  function SettleOn(t: Table, pair: string, ip: string, o: Outcome, now: int): Table {
    var t1 := Release(t, pair, ip);
    match o
    case Released => t1
    case Succeeded => t1 - {Pair(pair)}
    case Failed => FailAttempt(t1, pair, ip, now)
  }

  /** The entry of a counting window after one more failure. */
  function Counted(e: Entry, free: int, window: int, now: int): Entry {
    var w := if e.windowStart == 0 || now - e.windowStart >= window then e.(windowStart := now, failures := 0) else e;
    var c := w.(failures := w.failures + 1, lastFailure := now);
    if c.failures <= free then c else c.(lockedUntil := c.windowStart + window)
  }

  /** CountFailure, after pruning: the wait it answers is 0 within the budget. */
  function CountFailureOn(t: Table, key: string, free: int, window: int, now: int): (Table, int) {
    var e := Counted(Get(t, Counter(key)), free, window, now);
    (t[Counter(key) := e], if e.failures <= free then 0 else e.lockedUntil - now)
  }

  // ---- The throttle ----

  /** A reserved attempt; only its first settlement counts. */
  class Attempt {
    const pair: string
    const ip: string
    var settled: bool

    constructor (pair: string, ip: string)
      ensures this.pair == pair && this.ip == ip && !settled
    {
      this.pair, this.ip, settled := pair, ip, false;
    }
  }

  class Throttle {
    var entries: Table

    constructor ()
      ensures entries == map[]
    {
      entries := map[];
    }

    /** The second phase of pruneLocked: idle entries go until half of the table is free. */
    method DropIdle(now: Clock)
      modifies this
      ensures exists dropped :: DroppedIdle(old(entries), now, dropped, entries)
    {
      ghost var recent := entries;
      ghost var dropped: set<Key> := {};
      var left := entries.Keys;
      while left != {}
        invariant left <= recent.Keys && dropped == IdleKeys(recent, now) - left && entries == recent - dropped
        decreases left
      {
        var k :| k in left;
        DropOne(recent, now, left, k);
        if entries[k].inFlight == 0 && now > entries[k].lockedUntil {
          entries := entries - {k};
          dropped := dropped + {k};
        }
        left := left - {k};
        if |entries| < MAX_TRACKED_KEYS / 2 {
          assert DroppedIdle(recent, now, dropped, entries);
          return;
        }
      }
      assert DroppedIdle(recent, now, dropped, entries);
    }

    /** pruneLocked. */
    method Prune(now: Clock)
      modifies this
      ensures Pruned(old(entries), now, entries)
    {
      if |entries| < MAX_TRACKED_KEYS / 2 { return; }
      entries := entries - StaleKeys(entries, now);
      if |entries| >= MAX_TRACKED_KEYS { DropIdle(now); }
    }

    /** Reserve: a nil attempt comes with the time to wait. */
    method Reserve(pair: string, ip: string, now: Clock) returns (a: Attempt?, wait: int, ghost pruned: Table)
      modifies this
      ensures Pruned(old(entries), now, pruned)
      ensures entries == ReserveOn(pruned, pair, ip, now).0
      ensures a == null <==> ReserveOn(pruned, pair, ip, now).1 != Granted
      ensures a == null ==> ReserveOn(pruned, pair, ip, now).1 == Wait(wait)
      ensures a != null ==> fresh(a) && !a.settled && a.pair == pair && a.ip == ip && wait == 0
    {
      Prune(now);
      pruned := entries;
      var p := Forget(Get(entries, Pair(pair)), now);
      entries := entries[Pair(pair) := p];
      a, wait := null, 0;
      if p.lockedUntil - now > 0 { return null, p.lockedUntil - now, pruned; }
      if p.inFlight >= MAX_IN_FLIGHT_PER_PAIR { return null, BUSY_RETRY, pruned; }
      if ip != "" {
        var i := Forget(Get(entries, Address(ip)), now);
        entries := entries[Address(ip) := i];
        if p.failures > 0 && i.inFlight >= MAX_IN_FLIGHT_PER_IP { return null, BUSY_RETRY, pruned; }
        entries := entries[Address(ip) := Reserved(i)];
      }
      entries := entries[Pair(pair) := Reserved(p)];
      a := new Attempt(pair, ip);
    }

    /** Succeeded, Failed or Released; further calls are no-ops. */
    method Settle(a: Attempt, o: Outcome, now: Clock)
      modifies this, a
      ensures a.settled
      ensures entries == if old(a.settled) then old(entries) else SettleOn(old(entries), a.pair, a.ip, o, now)
    {
      if a.settled { return; }
      a.settled := true;
      entries := Release(entries, a.pair, a.ip);
      match o
      case Released =>
      case Succeeded => entries := entries - {Pair(a.pair)};
      case Failed =>
        var budget := FREE_ATTEMPTS;
        if a.ip != "" {
          var i := FailedAddress(Get(entries, Address(a.ip)), now);
          entries := entries[Address(a.ip) := i];
          if i.failures >= IP_FREE_ATTEMPTS { budget := NOISY_PAIR_BUDGET; }
        }
        entries := entries[Pair(a.pair) := FailedPair(Get(entries, Pair(a.pair)), budget, now)];
    }

    /** CountFailure. */
    method CountFailure(key: string, free: int, window: int, now: Clock) returns (wait: int, ghost pruned: Table)
      modifies this
      ensures Pruned(old(entries), now, pruned)
      ensures (entries, wait) == CountFailureOn(pruned, key, free, window, now)
    {
      Prune(now);
      pruned := entries;
      var e := Get(entries, Counter(key));
      if e.windowStart == 0 || now - e.windowStart >= window { e := e.(windowStart := now, failures := 0); }
      e := e.(failures := e.failures + 1, lastFailure := now);
      wait := 0;
      if e.failures > free {
        e := e.(lockedUntil := e.windowStart + window);
        wait := e.lockedUntil - now;
      }
      entries := entries[Counter(key) := e];
    }
  }
}
