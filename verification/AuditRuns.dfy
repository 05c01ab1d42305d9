// Every run of appends and prunes of the audit log, verification while it is pruned,
// and reading it in pages (internal/auditlog/auditlog.go).
module AuditRuns {
  import opened Calendar
  import opened AuditEvent
  import opened AuditLog

  datatype Step = Append(e: Event) | Prune(now: Instant)

  /** One append, or one application of the retention at a time. */
  function Apply(c: Chain, days: int, log: Log, step: Step): Log {
    match step
    case Append(e) => Appended(c, log, e)
    case Prune(now) => Pruned(log, now - days * DAY)
  }

  function Run(c: Chain, days: int, steps: seq<Step>): Log {
    if steps == [] then Log(Genesis(c), [])
    else Apply(c, days, Run(c, days, steps[..|steps| - 1]), steps[|steps| - 1])
  }

  /** Everything the run ever appended, as a log that is never pruned. */
  function History(c: Chain, steps: seq<Step>): seq<Event> {
    if steps == [] then [] else Extended(c, History(c, steps[..|steps| - 1]), steps[|steps| - 1])
  }

  function Extended(c: Chain, rows: seq<Event>, step: Step): seq<Event> {
    if step.Append? then Appended(c, Since(c, rows, 0), step.e).rows else rows
  }

  function Appends(steps: seq<Step>): nat {
    if steps == [] then 0 else Appends(steps[..|steps| - 1]) + if steps[|steps| - 1].Append? then 1 else 0
  }

  /** The log of rows after its first k were removed. */
  function Since(c: Chain, rows: seq<Event>, k: nat): Log
    requires k <= |rows|
  {
    Log(if k == 0 then Genesis(c) else AnchorAt(rows[k - 1]), rows[k..])
  }

  ghost predicate Genuine(c: Chain, rows: seq<Event>) { Chained(c, Genesis(c), rows) }

  lemma GenuineIds(c: Chain, rows: seq<Event>, i: nat)
    requires Genuine(c, rows) && i < |rows|
    ensures rows[i].id == i + 1
  {
    ChainedIds(c, Genesis(c), rows, |rows|, i + 1);
  }

  /** What is left of a genuine log chains to its anchor. */
  lemma SinceChained(c: Chain, rows: seq<Event>, k: nat)
    requires Genuine(c, rows) && k <= |rows|
    ensures Chained(c, Since(c, rows, k).anchor, Since(c, rows, k).rows)
    ensures Since(c, rows, k).anchor.lastId == k
    ensures HeadId(Since(c, rows, k)) == |rows|
    ensures HeadHash(Since(c, rows, k)) == HeadHash(Since(c, rows, 0))
  {
    var log := Since(c, rows, k);
    if k > 0 { GenuineIds(c, rows, k - 1); }
    if |rows| > 0 { GenuineIds(c, rows, |rows| - 1); }
    forall i | 0 <= i < |log.rows|
      ensures FollowsAt(c, log.anchor, log.rows, i)
    {
      assert FollowsAt(c, Genesis(c), rows, k + i);
    }
  }

  lemma AppendGenuine(c: Chain, rows: seq<Event>, e: Event)
    requires Genuine(c, rows)
    ensures Genuine(c, Appended(c, Since(c, rows, 0), e).rows)
  {
    var log := Appended(c, Since(c, rows, 0), e);
    assert Since(c, rows, 0) == Log(Genesis(c), rows);
    forall i | 0 <= i < |log.rows|
      ensures FollowsAt(c, Genesis(c), log.rows, i)
    {
      if i < |rows| { assert FollowsAt(c, Genesis(c), rows, i); }
    }
  }

  /** Appending to what is left is appending to the whole history. */
  lemma AppendSince(c: Chain, rows: seq<Event>, k: nat, e: Event)
    requires Genuine(c, rows) && k <= |rows|
    ensures Appended(c, Since(c, rows, k), e) == Since(c, Appended(c, Since(c, rows, 0), e).rows, k)
  {
    SinceChained(c, rows, k);
    SinceChained(c, rows, 0);
    var all := Appended(c, Since(c, rows, 0), e).rows;
    assert rows[0..] == rows;
    assert all[k..] == rows[k..] + [all[|rows|]];
  }

  lemma PruneSince(c: Chain, rows: seq<Event>, k: nat, cutoff: Instant)
    requires k <= |rows|
    ensures Pruned(Since(c, rows, k), cutoff) == Since(c, rows, k + ExpiredCount(rows[k..], cutoff))
  {
    var n := ExpiredCount(rows[k..], cutoff);
    assert rows[k..][n..] == rows[k + n..];
  }

  /** After a step the log is the extended history without its first k' entries. */
  ghost predicate LeavesSuffix(c: Chain, days: int, rows: seq<Event>, k: nat, step: Step, k': nat)
    requires k <= |rows|
  {
    var more := Extended(c, rows, step);
    Genuine(c, more) && k' <= |more| && Apply(c, days, Since(c, rows, k), step) == Since(c, more, k') && Since(c, more, k').anchor.lastId == k'
  }

  lemma AppendKeepsSuffix(c: Chain, days: int, rows: seq<Event>, k: nat, e: Event)
    requires Genuine(c, rows) && k <= |rows|
    ensures LeavesSuffix(c, days, rows, k, Append(e), k)
  {
    AppendGenuine(c, rows, e);
    AppendSince(c, rows, k, e);
    SinceChained(c, Extended(c, rows, Append(e)), k);
  }

  lemma PruneLeaves(c: Chain, rows: seq<Event>, k: nat, cutoff: Instant) returns (k': nat)
    requires Genuine(c, rows) && k <= |rows|
    ensures k <= k' <= |rows| && Pruned(Since(c, rows, k), cutoff) == Since(c, rows, k') && Since(c, rows, k').anchor.lastId == k'
  {
    k' := k + ExpiredCount(rows[k..], cutoff);
    PruneSince(c, rows, k, cutoff);
    SinceChained(c, rows, k');
  }

  /** One step keeps the log a suffix of the history. */
  lemma StepKeepsSuffix(c: Chain, days: int, rows: seq<Event>, k: nat, step: Step) returns (k': nat)
    requires Genuine(c, rows) && k <= |rows|
    ensures LeavesSuffix(c, days, rows, k, step, k') && k' >= k
  {
    match step
    case Append(e) =>
      AppendKeepsSuffix(c, days, rows, k, e);
      k' := k;
    case Prune(now) =>
      k' := PruneLeaves(c, rows, k, now - days * DAY);
  }

  /**
   * In every run the stored log is the history without a prefix: the anchor is the
   * last entry of that prefix, and the history itself is chained from the genesis.
   */
  lemma {:induction false} RunIsHistorySuffix(c: Chain, days: int, steps: seq<Step>)
    ensures Genuine(c, History(c, steps)) && |History(c, steps)| == Appends(steps)
    ensures Run(c, days, steps).anchor.lastId <= |History(c, steps)|
    ensures Run(c, days, steps) == Since(c, History(c, steps), Run(c, days, steps).anchor.lastId)
  {
    if steps != [] {
      var init := steps[..|steps| - 1];
      RunIsHistorySuffix(c, days, init);
      var k' := StepKeepsSuffix(c, days, History(c, init), Run(c, days, init).anchor.lastId, steps[|steps| - 1]);
    }
  }

  /** The retention ran at the times of the run, none later than now. */
  predicate PrunedBy(steps: seq<Step>, now: Instant) {
    forall i :: 0 <= i < |steps| && steps[i].Prune? ==> steps[i].now <= now
  }

  /** No prune of the run explains an anchor newer than the retention at now. */
  lemma {:induction false} AnchorExpired(c: Chain, days: int, steps: seq<Step>, now: Instant)
    requires PrunedBy(steps, now)
    ensures Run(c, days, steps).anchor.lastId > 0 ==> Run(c, days, steps).anchor.lastTime < now - days * DAY
  {
    if steps != [] {
      AnchorExpired(c, days, steps[..|steps| - 1], now);
    }
  }

  lemma WalkOfRun(c: Chain, a: Anchor, rows: seq<Event>)
    requires Chained(c, a, rows)
    ensures Walk(Log(a, rows)) == rows && Ordered(rows)
  {
    forall i | 0 <= i < |rows|
      ensures rows[i].id == a.lastId + 1 + i
    {
      ChainedIds(c, a, rows, |rows|, i + 1);
    }
    SelectAll(rows, a.lastId);
  }

  /**
   * After every run of appends and prunes the log verifies: every kept entry is
   * checked, the head is the last append, and with an unchanged retention and a clock
   * that does not go back the anchor raises no warning.
   */
  lemma RunVerifies(c: Chain, days: int, steps: seq<Step>, now: Instant)
    requires PrunedBy(steps, now)
    ensures var log := Run(c, days, steps);
            && Ordered(log.rows)
            && Walk(log) == log.rows && Chained(c, log.anchor, Walk(log))
            && |log.rows| == Appends(steps) - log.anchor.lastId
            && HeadId(log) == Appends(steps)
            && HeadHash(log) == HeadHash(Since(c, History(c, steps), 0))
            && !AnchorTooNew(log.anchor, now, days)
  {
    RunIsHistorySuffix(c, days, steps);
    var log := Run(c, days, steps);
    SinceChained(c, History(c, steps), log.anchor.lastId);
    WalkOfRun(c, log.anchor, log.rows);
    AnchorExpired(c, days, steps, now);
  }

  lemma RunStep(c: Chain, days: int, steps: seq<Step>, i: nat)
    requires i < |steps|
    ensures Run(c, days, steps[..i + 1]) == Apply(c, days, Run(c, days, steps[..i]), steps[i])
  {
    assert steps[..i + 1][..i] == steps[..i];
  }

  method RunOne(store: Store, days: int, step: Step)
    modifies store
    ensures store.View() == Apply(store.chain, days, old(store.View()), step)
  {
    match step
    case Append(e) => var _ := store.Append(e);
    case Prune(at) => var _ := store.Prune(at - days * DAY);
  }

  /** A run of the store. */
  method RunStore(chain: Chain, days: int, steps: seq<Step>) returns (store: Store)
    ensures fresh(store) && store.chain == chain && store.View() == Run(chain, days, steps)
  {
    store := new Store(chain);
    var i := 0;
    while i < |steps|
      invariant 0 <= i <= |steps| && fresh(store) && store.chain == chain
      invariant store.View() == Run(chain, days, steps[..i])
    {
      RunStep(chain, days, steps, i);
      RunOne(store, days, steps[i]);
      i := i + 1;
    }
    assert steps[..i] == steps;
  }

  /** A run of the store, then Verify. */
  method RunAndVerify(chain: Chain, days: int, steps: seq<Step>, now: Instant) returns (v: Verification)
    requires PrunedBy(steps, now)
    ensures v.ok && !v.warning && v.headId == Appends(steps)
    ensures v.checked == |Run(chain, days, steps).rows|
  {
    var store := RunStore(chain, days, steps);
    RunVerifies(chain, days, steps, now);
    v := Verify(store, now, days);
  }

  // ---- Verification while the log is pruned ----

  /** What one query of a walk finds: entries after the k-th, up to the n-th ever written. */
  datatype Mark = Mark(k: nat, n: nat)

  /** The log at each query of a walk that began when k0 entries had been removed. */
  ghost predicate Observed(c: Chain, rows: seq<Event>, k0: nat, marks: seq<Mark>, views: seq<Log>) {
    && Genuine(c, rows) && k0 <= |rows| && |marks| == |views|
    && (forall j :: 0 <= j < |marks| ==> k0 <= marks[j].k <= marks[j].n <= |rows| && views[j] == Since(c, rows[..marks[j].n], marks[j].k))
    && (forall i, j :: 0 <= i < j < |marks| ==> marks[i].k <= marks[j].k && marks[i].n <= marks[j].n)
  }

  /** Queries before the j-th found full pages that the retention had not reached. */
  predicate FullPagesBefore(k0: nat, marks: seq<Mark>, j: nat)
    requires j <= |marks|
  {
    forall i :: 0 <= i < j ==> marks[i].k <= k0 + WALK_BATCH * i && marks[i].n >= k0 + WALK_BATCH * i + WALK_BATCH
  }

  /** Query j of the walk finds entries, but the retention removed some it had not read. */
  predicate Overtaken(k0: nat, marks: seq<Mark>, j: nat)
    requires j < |marks|
  {
    FullPagesBefore(k0, marks, j) && marks[j].k > k0 + WALK_BATCH * j && marks[j].n > marks[j].k
  }

  /** The retention overtakes the walk at some query. */
  predicate Overtakes(k0: nat, marks: seq<Mark>) { exists j :: 0 <= j < |marks| && Overtaken(k0, marks, j) }

  lemma PageOf(c: Chain, rows: seq<Event>, k: nat, n: nat, cursor: nat)
    requires Genuine(c, rows) && k <= n <= |rows| && cursor <= |rows|
    ensures var log := Since(c, rows[..n], k);
            Select(log.rows, Any, 0, cursor) == Found(rows, Mark(k, n), cursor)
  {
    var s := rows[..n][k..];
    assert s == rows[k..n];
    forall i | 0 <= i < |s|
      ensures s[i].id == k + i + 1
    {
      GenuineIds(c, rows, k + i);
    }
    SelectAll(s, 0);
    if cursor <= k {
      if cursor > 0 { SelectAll(s, cursor); }
    } else if cursor <= n {
      SelectResume(s, Any, 0, 0, cursor - k, cursor);
      assert s[cursor - k..] == rows[cursor..n];
    } else {
      SelectNone(s, cursor);
    }
  }

  lemma {:induction false} SelectNone(rows: seq<Event>, after: int)
    requires after > 0 && forall i :: 0 <= i < |rows| ==> rows[i].id <= after
    ensures Select(rows, Any, 0, after) == []
  {
    if rows != [] { SelectNone(rows[1..], after); }
  }

  /** How a walk over the marks ends: at query q (all of them when it is not finished). */
  ghost predicate EndsAt(k0: nat, marks: seq<Mark>, q: nat, finished: bool, ok: bool) {
    && q <= |marks| && FullPagesBefore(k0, marks, q)
    && (if !finished then q == |marks|
        else if ok then q < |marks| && !FullPagesBefore(k0, marks, q + 1) && !Overtaken(k0, marks, q)
        else q < |marks| && Overtaken(k0, marks, q))
  }

  /** The walk reports a break exactly when some query is overtaken. */
  lemma EndsBrokenIff(k0: nat, marks: seq<Mark>, q: nat, finished: bool, ok: bool)
    requires EndsAt(k0, marks, q, finished, ok)
    ensures finished && !ok <==> Overtakes(k0, marks)
  {
    forall j | 0 <= j < q
      ensures !Overtaken(k0, marks, j)
    {
      assert marks[j].k <= k0 + WALK_BATCH * j;
    }
    if finished && ok {
      forall j | q < j < |marks|
        ensures !Overtaken(k0, marks, j)
      {
        if FullPagesBefore(k0, marks, j) { assert FullPagesBefore(k0, marks, q + 1); }
      }
    }
  }

  /** A walk that has found its first q pages full and intact. */
  ghost predicate Going(c: Chain, a: Anchor, walk: seq<Event>, v: Verification, q: nat) {
    Reached(c, a, walk, v) && v.reason == Intact && !v.ok && v.checked == WALK_BATCH * q
  }

  /**
   * Verify when every query sees the log as appends and prunes have left it by then
   * (the walk is not one transaction). An intact log is reported broken exactly when
   * the retention overtakes the walk; what it reports is then a missing range.
   */
  method VerifyDuring(c: Chain, anchor: Anchor, views: seq<Log>, ghost rows: seq<Event>, ghost k0: nat, ghost marks: seq<Mark>)
      returns (v: Verification, finished: bool)
    requires Observed(c, rows, k0, marks, views) && anchor == Since(c, rows, k0).anchor
    ensures finished && !v.ok <==> Overtakes(k0, marks)
    ensures finished && !v.ok ==> v.reason == Missing
  {
    v := Verification(false, 0, anchor.lastId, anchor.lastHash, 0, Intact, false);
    finished := false;
    SinceChained(c, rows, k0);
    var q := 0;
    while q < |views| && !finished
      invariant 0 <= q <= |views|
      invariant !finished ==> Going(c, anchor, rows[k0..], v, q) && FullPagesBefore(k0, marks, q)
      invariant finished ==> EndsAt(k0, marks, q, true, v.ok) && (v.ok || v.reason == Missing)
      decreases |views| - q, !finished
    {
      v, finished := Query(c, anchor, views[q], v, q, rows, k0, marks);
      if !finished { q := q + 1; }
    }
    EndsBrokenIff(k0, marks, q, finished, v.ok);
  }

  /** The check of a page of a walk that is chained finds nothing. */
  method CheckIntact(c: Chain, ghost a: Anchor, ghost walk: seq<Event>, list: seq<Event>, start: Verification) returns (v: Verification)
    requires Chained(c, a, walk) && Reached(c, a, walk, start) && start.reason == Intact
    requires start.checked + |list| <= |walk| && list == walk[start.checked..start.checked + |list|]
    ensures Reached(c, a, walk, v) && v.reason == Intact && v.ok == start.ok && v.checked == start.checked + |list|
  {
    v := CheckPage(c, a, walk, list, start);
    assert v.checked < |walk| ==> FollowsAt(c, a, walk, v.checked);
  }

  /** The check of a page that starts right after the entries checked so far. */
  method CheckNext(c: Chain, anchor: Anchor, list: seq<Event>, v: Verification, ghost page: seq<Event>, ghost q: nat, ghost rows: seq<Event>,
                   ghost k0: nat, ghost marks: seq<Mark>)
      returns (v': Verification, finished: bool)
    requires Genuine(c, rows) && k0 <= |rows| && Chained(c, anchor, rows[k0..]) && q < |marks| && marks[q].k <= marks[q].n <= |rows|
    requires Going(c, anchor, rows[k0..], v, q) && FullPagesBefore(k0, marks, q)
    requires page == Found(rows, marks[q], k0 + v.checked) && (|page| > 0 ==> page[0].id == k0 + v.checked + 1) && list == Take(page, WALK_BATCH)
    ensures finished ==> EndsAt(k0, marks, q, true, true) && v'.ok
    ensures !finished ==> Going(c, anchor, rows[k0..], v', q + 1) && FullPagesBefore(k0, marks, q + 1)
  {
    NextSlice(c, rows, k0, marks[q], v.checked, page);
    v' := CheckIntact(c, anchor, rows[k0..], list, v);
    finished := |list| < WALK_BATCH;
    PageEnds(k0, marks, q, |page|);
    if finished { v' := v'.(ok := true); }
  }

  /** One query of the walk and the check of its page. */
  method Query(c: Chain, anchor: Anchor, log: Log, v: Verification, ghost q: nat, ghost rows: seq<Event>, ghost k0: nat, ghost marks: seq<Mark>)
      returns (v': Verification, finished: bool)
    requires Genuine(c, rows) && k0 <= |rows| && anchor == Since(c, rows, k0).anchor && q < |marks|
    requires marks[q].k <= marks[q].n <= |rows| && log == Since(c, rows[..marks[q].n], marks[q].k)
    requires Going(c, anchor, rows[k0..], v, q) && FullPagesBefore(k0, marks, q)
    ensures finished ==> EndsAt(k0, marks, q, true, v'.ok) && (v'.ok || v'.reason == Missing)
    ensures !finished ==> Going(c, anchor, rows[k0..], v', q + 1) && FullPagesBefore(k0, marks, q + 1)
  {
    var page := Select(log.rows, Any, 0, v.headId);
    var list := Take(page, WALK_BATCH);
    PageFound(c, anchor, rows, k0, marks[q], v);
    if |list| > 0 && list[0].id != v.headId + 1 {
      v' := v.(brokenId := list[0].id, reason := Missing);
      finished := true;
      BreakIsOvertaken(c, rows, k0, marks, q, page);
    } else {
      v', finished := CheckNext(c, anchor, list, v, page, q, rows, k0, marks);
    }
  }

  /** What a query after cursor entries finds when those from the k-th to the n-th are there. */
  function Found(rows: seq<Event>, m: Mark, cursor: nat): seq<Event>
    requires m.k <= m.n <= |rows|
  {
    if cursor <= m.k then rows[m.k..m.n] else if cursor <= m.n then rows[cursor..m.n] else []
  }

  lemma PageFound(c: Chain, a: Anchor, rows: seq<Event>, k0: nat, m: Mark, v: Verification)
    requires Genuine(c, rows) && k0 <= |rows| && a == Since(c, rows, k0).anchor && m.k <= m.n <= |rows| && Reached(c, a, rows[k0..], v)
    ensures v.headId == k0 + v.checked && Chained(c, a, rows[k0..])
    ensures Select(Since(c, rows[..m.n], m.k).rows, Any, 0, v.headId) == Found(rows, m, k0 + v.checked)
  {
    SinceChained(c, rows, k0);
    ChainedIds(c, a, rows[k0..], v.checked, v.checked);
    PageOf(c, rows, m.k, m.n, v.headId);
  }

  /** A page without a gap: a full one lets the walk go on, a short one ends it. */
  lemma PageEnds(k0: nat, marks: seq<Mark>, q: nat, size: nat)
    requires q < |marks| && FullPagesBefore(k0, marks, q)
    requires var cursor := k0 + WALK_BATCH * q;
             if size > 0 then marks[q].k <= cursor && marks[q].n == cursor + size else marks[q].n <= cursor || marks[q].n <= marks[q].k
    ensures size >= WALK_BATCH ==> FullPagesBefore(k0, marks, q + 1)
    ensures size < WALK_BATCH ==> EndsAt(k0, marks, q, true, true)
  {
    var cursor := k0 + WALK_BATCH * q;
    assert FullPagesBefore(k0, marks, q + 1) <==> marks[q].k <= cursor && marks[q].n >= cursor + WALK_BATCH;
  }

  lemma BreakIsOvertaken(c: Chain, rows: seq<Event>, k0: nat, marks: seq<Mark>, q: nat, page: seq<Event>)
    requires Genuine(c, rows) && q < |marks| && FullPagesBefore(k0, marks, q)
    requires marks[q].k <= marks[q].n <= |rows| && page == Found(rows, marks[q], k0 + WALK_BATCH * q)
    requires |page| > 0 && page[0].id != k0 + WALK_BATCH * q + 1
    ensures Overtaken(k0, marks, q)
  {
    var cursor := k0 + WALK_BATCH * q;
    if cursor > marks[q].k {
      GenuineIds(c, rows, cursor);
    } else {
      GenuineIds(c, rows, marks[q].k);
    }
  }

  lemma SliceOf(rows: seq<Event>, k0: nat, checked: nat, end: nat, n: nat)
    requires k0 + checked + n <= end <= |rows|
    ensures rows[k0 + checked..end][..n] == rows[k0..][checked..checked + n]
  {
    var a, b := rows[k0 + checked..end][..n], rows[k0..][checked..checked + n];
    assert |a| == |b| == n;
    forall i | 0 <= i < n
      ensures a[i] == b[i]
    {
      assert a[i] == rows[k0 + checked + i] == b[i];
    }
  }

  /** A page that starts right after the entries checked so far, and its first 500, are the next slice of the history. */
  lemma NextSlice(c: Chain, rows: seq<Event>, k0: nat, m: Mark, checked: nat, page: seq<Event>)
    requires Genuine(c, rows) && k0 + checked <= |rows| && m.k <= m.n <= |rows| && page == Found(rows, m, k0 + checked)
    requires |page| > 0 ==> page[0].id == k0 + checked + 1
    ensures var list, walk := Take(page, WALK_BATCH), rows[k0..];
            checked + |list| <= |walk| && list == walk[checked..checked + |list|]
    ensures if |page| > 0 then m.k <= k0 + checked && m.n == k0 + checked + |page| else m.n <= k0 + checked || m.n <= m.k
  {
    if |page| > 0 && k0 + checked <= m.k { GenuineIds(c, rows, m.k); }
    if |page| > 0 {
      assert page == rows[k0 + checked..m.n];
      SliceOf(rows, k0, checked, m.n, |Take(page, WALK_BATCH)|);
      assert Take(page, WALK_BATCH) == page[..|Take(page, WALK_BATCH)|];
    }
  }
}
