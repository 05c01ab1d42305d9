// Verification while the log is appended to and pruned, over the runs of the store
// (internal/auditlog/auditlog.go): the anchor and every page of the walk are read at
// points of a run, each not before the one before it.
module AuditWalks {
  import opened Calendar
  import opened AuditEvent
  import opened AuditLog
  import opened AuditRuns
  import opened AuditPages

  // ---- Points of a run ----

  lemma ExtendedGrows(c: Chain, rows: seq<Event>, step: Step)
    ensures rows <= Extended(c, rows, step)
  {
    assert Since(c, rows, 0).rows == rows;
  }

  lemma {:induction false} HistoryGrows(c: Chain, steps: seq<Step>, i: nat, j: nat)
    requires i <= j <= |steps|
    ensures History(c, steps[..i]) <= History(c, steps[..j])
    decreases j
  {
    if i < j {
      HistoryGrows(c, steps, i, j - 1);
      assert steps[..j][..j - 1] == steps[..j - 1];
      ExtendedGrows(c, History(c, steps[..j - 1]), steps[j - 1]);
    }
  }

  /** A step moves the anchor forward only. */
  lemma AnchorStep(c: Chain, days: int, steps: seq<Step>, i: nat)
    requires i < |steps|
    ensures Run(c, days, steps[..i]).anchor.lastId <= Run(c, days, steps[..i + 1]).anchor.lastId
  {
    RunStep(c, days, steps, i);
    RunIsHistorySuffix(c, days, steps[..i]);
    var k' := StepKeepsSuffix(c, days, History(c, steps[..i]), Run(c, days, steps[..i]).anchor.lastId, steps[i]);
  }

  lemma {:induction false} Climbs(s: seq<nat>, i: nat, j: nat)
    requires i <= j < |s| && forall k :: 0 < k < |s| ==> s[k - 1] <= s[k]
    ensures s[i] <= s[j]
    decreases j
  {
    if i < j { Climbs(s, i, j - 1); }
  }

  lemma AnchorGrows(c: Chain, days: int, steps: seq<Step>, i: nat, j: nat)
    requires i <= j <= |steps|
    ensures Run(c, days, steps[..i]).anchor.lastId <= Run(c, days, steps[..j]).anchor.lastId
  {
    var ids := seq(|steps| + 1, k requires 0 <= k <= |steps| => Run(c, days, steps[..k]).anchor.lastId);
    forall k | 0 < k < |ids|
      ensures ids[k - 1] <= ids[k]
    {
      AnchorStep(c, days, steps, k - 1);
    }
    Climbs(ids, i, j);
  }

  lemma {:induction false} AppendsGrow(steps: seq<Step>, i: nat, j: nat)
    requires i <= j <= |steps|
    ensures Appends(steps[..i]) <= Appends(steps[..j])
    decreases j
  {
    if i < j {
      AppendsGrow(steps, i, j - 1);
      assert steps[..j][..j - 1] == steps[..j - 1];
    }
  }

  /** Points at which a walk that began at start makes its queries. */
  predicate Points(steps: seq<Step>, start: nat, at: seq<nat>) {
    && start <= |steps| && (forall j :: 0 <= j < |at| ==> start <= at[j] <= |steps|)
    && forall i, j :: 0 <= i < j < |at| ==> at[i] <= at[j]
  }

  /** What is removed, and what was ever written, at a point of a run. */
  function MarkAt(c: Chain, days: int, steps: seq<Step>, i: nat): Mark
    requires i <= |steps|
  {
    Mark(Run(c, days, steps[..i]).anchor.lastId, Appends(steps[..i]))
  }

  function MarksAt(c: Chain, days: int, steps: seq<Step>, at: seq<nat>): (marks: seq<Mark>)
    requires forall j :: 0 <= j < |at| ==> at[j] <= |steps|
    ensures |marks| == |at| && forall j :: 0 <= j < |at| ==> marks[j] == MarkAt(c, days, steps, at[j])
  {
    if at == [] then [] else MarksAt(c, days, steps, at[..|at| - 1]) + [MarkAt(c, days, steps, at[|at| - 1])]
  }

  function ViewsAt(c: Chain, days: int, steps: seq<Step>, at: seq<nat>): (views: seq<Log>)
    requires forall j :: 0 <= j < |at| ==> at[j] <= |steps|
    ensures |views| == |at| && forall j :: 0 <= j < |at| ==> views[j] == Run(c, days, steps[..at[j]])
  {
    if at == [] then [] else ViewsAt(c, days, steps, at[..|at| - 1]) + [Run(c, days, steps[..at[|at| - 1]])]
  }

  /** The log at a point of a run, as what is left of the whole history. */
  lemma ViewAt(c: Chain, days: int, steps: seq<Step>, i: nat)
    requires i <= |steps|
    ensures var m := MarkAt(c, days, steps, i);
            m.k <= m.n <= |History(c, steps)| && Run(c, days, steps[..i]) == Since(c, History(c, steps)[..m.n], m.k)
  {
    RunIsHistorySuffix(c, days, steps[..i]);
    HistoryGrows(c, steps, i, |steps|);
    assert steps[..|steps|] == steps;
    assert History(c, steps)[..|History(c, steps[..i])|] == History(c, steps[..i]);
  }

  /** The logs of every run, at every increasing choice of points, are logs a walk may observe. */
  lemma RunIsObserved(c: Chain, days: int, steps: seq<Step>, start: nat, at: seq<nat>)
    requires Points(steps, start, at)
    ensures var k0 := MarkAt(c, days, steps, start).k;
            && Observed(c, History(c, steps), k0, MarksAt(c, days, steps, at), ViewsAt(c, days, steps, at))
            && Run(c, days, steps[..start]).anchor == Since(c, History(c, steps), k0).anchor
  {
    var marks := MarksAt(c, days, steps, at);
    RunIsHistorySuffix(c, days, steps);
    ViewAt(c, days, steps, start);
    forall j | 0 <= j < |at|
      ensures MarkAt(c, days, steps, start).k <= marks[j].k <= marks[j].n <= |History(c, steps)|
      ensures Run(c, days, steps[..at[j]]) == Since(c, History(c, steps)[..marks[j].n], marks[j].k)
    {
      ViewAt(c, days, steps, at[j]);
      AnchorGrows(c, days, steps, start, at[j]);
    }
    forall i, j | 0 <= i < j < |marks|
      ensures marks[i].k <= marks[j].k && marks[i].n <= marks[j].n
    {
      AnchorGrows(c, days, steps, at[i], at[j]);
      AppendsGrow(steps, at[i], at[j]);
    }
  }

  /**
   * Verify during any run of appends and prunes: it reports a break if and only if some query finds
   * entries although the retention removed some the walk had not read, and then as a missing range.
   */
  method VerifyRun(c: Chain, days: int, steps: seq<Step>, start: nat, at: seq<nat>) returns (v: Verification, finished: bool)
    requires Points(steps, start, at)
    ensures finished && !v.ok <==> Overtakes(MarkAt(c, days, steps, start).k, MarksAt(c, days, steps, at))
    ensures finished && !v.ok ==> v.reason == Missing
  {
    RunIsObserved(c, days, steps, start, at);
    ghost var rows, k0, marks := History(c, steps), MarkAt(c, days, steps, start).k, MarksAt(c, days, steps, at);
    v, finished := VerifyDuring(c, Run(c, days, steps[..start]).anchor, ViewsAt(c, days, steps, at), rows, k0, marks);
  }

  // ---- Export while the log changes ----

  ghost predicate Everywhere(e: Event, views: seq<Log>) { forall j :: 0 <= j < |views| ==> e in views[j].rows }

  ghost predicate Somewhere(e: Event, views: seq<Log>) { exists j :: 0 <= j < |views| && e in views[j].rows }

  /** An export has given out after its queries found views, and goes on after the ID after. */
  ghost predicate Given(views: seq<Log>, p: Event -> bool, after: int, out: seq<Event>) {
    && after >= 0 && Ordered(out)
    && (forall e :: e in out ==> p(e) && e.id <= after && Somewhere(e, views))
    && forall e :: p(e) && 0 < e.id <= after && Everywhere(e, views) ==> e in out
  }

  /** One page of an export: matching entries after the cursor in order, and all of them unless it is full. */
  ghost predicate NextEntries(rows: seq<Event>, p: Event -> bool, after: int, list: seq<Event>) {
    && Ordered(list)
    && (forall e :: e in list ==> e in rows && p(e) && e.id > after)
    && forall e :: e in rows && p(e) && e.id > after && e !in list ==> |list| == WALK_BATCH && list[WALK_BATCH - 1].id < e.id
  }

  lemma PageIsNext(rows: seq<Event>, p: Event -> bool, after: int)
    requires Table(rows) && after >= 0
    ensures NextEntries(rows, p, after, Take(Select(rows, p, 0, after), WALK_BATCH))
  {
    PageHolds(rows, p, 0, after, true, WALK_BATCH);
    var list := Take(Select(rows, p, 0, after), WALK_BATCH);
    assert Ordered(list) by {
      assert forall i, j :: 0 <= i < j < |list| ==> Precedes(list[i], list[j], true);
    }
    assert forall e :: e in rows ==> (Selected(e, p, 0, after) <==> p(e) && e.id > after);
  }

  lemma OrderedJoin(a: seq<Event>, b: seq<Event>, after: int)
    requires Ordered(a) && Ordered(b) && (forall e :: e in a ==> e.id <= after) && forall e :: e in b ==> e.id > after
    ensures Ordered(a + b)
  {
    forall i, j | 0 <= i < j < |a + b|
      ensures (a + b)[i].id < (a + b)[j].id
    {
      if i < |a| { assert a[i] in a; }
      if j >= |a| { assert b[j - |a|] in b; }
    }
  }

  /** What is given of a page, up to a failure of the callback or all of it, comes after what was given before. */
  lemma GivenMore(views: seq<Log>, view: Log, p: Event -> bool, after: int, out: seq<Event>, list: seq<Event>, given: seq<Event>)
    requires Given(views, p, after, out) && NextEntries(view.rows, p, after, list) && given <= list
    ensures Ordered(out + given) && forall e :: e in out + given ==> p(e) && Somewhere(e, views + [view])
  {
    assert forall e :: e in given ==> e in list;
    OrderedJoin(out, given, after);
    forall e | e in out + given
      ensures p(e) && Somewhere(e, views + [view])
    {
      SomewhereMore(e, views, view);
    }
  }

  lemma SomewhereMore(e: Event, views: seq<Log>, view: Log)
    ensures Somewhere(e, views) || e in view.rows ==> Somewhere(e, views + [view])
    ensures Everywhere(e, views + [view]) ==> Everywhere(e, views) && e in view.rows
  {
    if Somewhere(e, views) {
      var j :| 0 <= j < |views| && e in views[j].rows;
      assert (views + [view])[j] == views[j];
    }
    assert (views + [view])[|views|] == view;
    assert forall j :: 0 <= j < |views| ==> (views + [view])[j] == views[j];
  }

  /** A page moves the export on: to its last entry when it is full, else past everything. */
  lemma GivenPage(views: seq<Log>, view: Log, p: Event -> bool, after: int, out: seq<Event>, list: seq<Event>)
    requires Given(views, p, after, out) && NextEntries(view.rows, p, after, list)
    ensures forall e :: p(e) && e.id > 0 && Everywhere(e, views + [view]) ==>
              e in out + list || (|list| == WALK_BATCH && list[WALK_BATCH - 1].id < e.id)
  {
    forall e | p(e) && e.id > 0 && Everywhere(e, views + [view])
      ensures e in out + list || (|list| == WALK_BATCH && list[WALK_BATCH - 1].id < e.id)
    {
      SomewhereMore(e, views, view);
    }
  }

  lemma GivenOn(views: seq<Log>, view: Log, p: Event -> bool, after: int, out: seq<Event>, list: seq<Event>)
    requires Given(views, p, after, out) && NextEntries(view.rows, p, after, list) && |list| == WALK_BATCH
    ensures Given(views + [view], p, list[WALK_BATCH - 1].id, out + list)
  {
    GivenMore(views, view, p, after, out, list, list);
    GivenPage(views, view, p, after, out, list);
    assert list[WALK_BATCH - 1] in list;
    forall e | e in out + list
      ensures e.id <= list[WALK_BATCH - 1].id
    {
      if e in list {
        var i :| 0 <= i < |list| && list[i] == e;
      }
    }
  }

  /** What an export whose queries found views gave to its callback. */
  ghost predicate Exported(views: seq<Log>, p: Event -> bool, fails: Event -> bool, out: seq<Event>, ok: bool) {
    && Ordered(out) && (forall e :: e in out ==> p(e) && Somewhere(e, views))
    && if ok then NoneFails(out, fails) else out != [] && fails(out[|out| - 1]) && NoneFails(out[..|out| - 1], fails)
  }

  ghost predicate Complete(views: seq<Log>, p: Event -> bool, out: seq<Event>) { forall e :: p(e) && Everywhere(e, views) ==> e in out }

  lemma ExportedMore(views: seq<Log>, view: Log, p: Event -> bool, fails: Event -> bool, after: int, out: seq<Event>, list: seq<Event>,
                     given: seq<Event>, ok: bool)
    requires Given(views, p, after, out) && NoneFails(out, fails) && NextEntries(view.rows, p, after, list) && Delivered(list, fails, given, ok)
    ensures Exported(views + [view], p, fails, out + given, ok)
  {
    GivenMore(views, view, p, after, out, list, given);
    if !ok { assert (out + given)[..|out + given| - 1] == out + given[..|given| - 1]; }
  }

  lemma LastPageCompletes(views: seq<Log>, view: Log, p: Event -> bool, after: int, out: seq<Event>, list: seq<Event>)
    requires Given(views, p, after, out) && NextEntries(view.rows, p, after, list) && |list| < WALK_BATCH && Table(view.rows)
    ensures Complete(views + [view], p, out + list)
  {
    GivenPage(views, view, p, after, out, list);
    forall e | p(e) && Everywhere(e, views + [view])
      ensures e in out + list
    {
      SomewhereMore(e, views, view);
    }
  }

  /** Export when every query sees the log as it is by then: made is the number of queries. */
  method ExportDuring(views: seq<Log>, p: Event -> bool, fails: Event -> bool) returns (out: seq<Event>, ok: bool, made: nat, finished: bool)
    requires forall j :: 0 <= j < |views| ==> Table(views[j].rows)
    ensures made <= |views| && Exported(views[..made], p, fails, out, ok)
    ensures ok && finished ==> made > 0 && Complete(views[..made], p, out)
  {
    out, ok, made, finished := [], true, 0, false;
    var after := 0;
    while made < |views| && ok && !finished
      invariant made <= |views| && Exported(views[..made], p, fails, out, ok)
      invariant ok && !finished ==> Given(views[..made], p, after, out)
      invariant ok && finished ==> made > 0 && Complete(views[..made], p, out)
      decreases |views| - made
    {
      var list := Take(Select(views[made].rows, p, 0, after), WALK_BATCH);
      PageIsNext(views[made].rows, p, after);
      assert views[..made + 1] == views[..made] + [views[made]];
      var given;
      given, ok := Deliver(list, fails);
      ExportedMore(views[..made], views[made], p, fails, after, out, list, given, ok);
      if |list| < WALK_BATCH {
        LastPageCompletes(views[..made], views[made], p, after, out, list);
        finished := true;
      } else {
        GivenOn(views[..made], views[made], p, after, out, list);
        after := list[WALK_BATCH - 1].id;
      }
      out, made := out + given, made + 1;
    }
  }

  lemma SliceIn(c: Chain, rows: seq<Event>, k: nat, n: nat, e: Event)
    requires Genuine(c, rows) && k <= n <= |rows| && e in rows[..n][k..]
    ensures e in rows && k < e.id <= n
  {
    var x :| 0 <= x < n - k && rows[..n][k..][x] == e;
    assert rows[k + x] == e;
    GenuineIds(c, rows, k + x);
  }

  lemma InSlice(c: Chain, rows: seq<Event>, k: nat, n: nat, e: Event)
    requires Genuine(c, rows) && k <= n <= |rows| && e in rows && k < e.id <= n
    ensures e in rows[..n][k..]
  {
    var y :| 0 <= y < |rows| && rows[y] == e;
    GenuineIds(c, rows, y);
    assert rows[..n][k..][y - k] == e;
  }

  /** An entry is in the log at a point of a run if and only if it was written by then and not removed. */
  lemma PresentIff(c: Chain, days: int, steps: seq<Step>, i: nat, e: Event)
    requires i <= |steps|
    ensures e in Run(c, days, steps[..i]).rows <==> e in History(c, steps) && MarkAt(c, days, steps, i).k < e.id <= MarkAt(c, days, steps, i).n
  {
    var rows, m := History(c, steps), MarkAt(c, days, steps, i);
    ViewAt(c, days, steps, i);
    RunIsHistorySuffix(c, days, steps);
    if e in rows[..m.n][m.k..] { SliceIn(c, rows, m.k, m.n, e); }
    if e in rows && m.k < e.id <= m.n { InSlice(c, rows, m.k, m.n, e); }
  }

  lemma SinceTable(c: Chain, rows: seq<Event>, k: nat)
    requires Genuine(c, rows) && k <= |rows|
    ensures Table(Since(c, rows, k).rows)
  {
    var left := rows[k..];
    forall i | 0 <= i < |left|
      ensures left[i].id == k + i + 1
    {
      GenuineIds(c, rows, k + i);
    }
  }

  lemma RunTable(c: Chain, days: int, steps: seq<Step>)
    ensures Table(Run(c, days, steps).rows)
  {
    RunIsHistorySuffix(c, days, steps);
    SinceTable(c, History(c, steps), Run(c, days, steps).anchor.lastId);
  }

  /** An entry that is in the log at the first and at the last point is in it at all of them. */
  lemma PresentBetween(c: Chain, days: int, steps: seq<Step>, at: seq<nat>, e: Event)
    requires Points(steps, 0, at) && at != []
    requires e in Run(c, days, steps[..at[0]]).rows && e in Run(c, days, steps[..at[|at| - 1]]).rows
    ensures Everywhere(e, ViewsAt(c, days, steps, at))
  {
    PresentIff(c, days, steps, at[0], e);
    PresentIff(c, days, steps, at[|at| - 1], e);
    forall j | 0 <= j < |at|
      ensures e in Run(c, days, steps[..at[j]]).rows
    {
      AppendsGrow(steps, at[0], at[j]);
      AnchorGrows(c, days, steps, at[j], at[|at| - 1]);
      PresentIff(c, days, steps, at[j], e);
    }
  }

  lemma ViewsPrefix(c: Chain, days: int, steps: seq<Step>, at: seq<nat>, n: nat)
    requires Points(steps, 0, at) && n <= |at|
    ensures Points(steps, 0, at[..n]) && ViewsAt(c, days, steps, at)[..n] == ViewsAt(c, days, steps, at[..n])
  {
  }

  lemma ExportedFromHistory(c: Chain, days: int, steps: seq<Step>, at: seq<nat>, e: Event)
    requires Points(steps, 0, at) && Somewhere(e, ViewsAt(c, days, steps, at))
    ensures e in History(c, steps)
  {
    var j :| 0 <= j < |at| && e in ViewsAt(c, days, steps, at)[j].rows;
    PresentIff(c, days, steps, at[j], e);
  }

  lemma AllFromHistory(c: Chain, days: int, steps: seq<Step>, at: seq<nat>, p: Event -> bool, fails: Event -> bool, out: seq<Event>, ok: bool)
    requires Points(steps, 0, at) && Exported(ViewsAt(c, days, steps, at), p, fails, out, ok)
    ensures forall e :: e in out ==> e in History(c, steps)
  {
    forall e | e in out
      ensures e in History(c, steps)
    {
      ExportedFromHistory(c, days, steps, at, e);
    }
  }

  /** Every matching entry that is in the log at two points of a run is in out. */
  ghost predicate Covers(c: Chain, days: int, steps: seq<Step>, first: nat, last: nat, p: Event -> bool, out: seq<Event>)
    requires first <= |steps| && last <= |steps|
  {
    forall e :: p(e) && e in Run(c, days, steps[..first]).rows && e in Run(c, days, steps[..last]).rows ==> e in out
  }

  lemma CompleteCovers(c: Chain, days: int, steps: seq<Step>, at: seq<nat>, p: Event -> bool, out: seq<Event>)
    requires Points(steps, 0, at) && at != [] && Complete(ViewsAt(c, days, steps, at), p, out)
    ensures Covers(c, days, steps, at[0], at[|at| - 1], p, out)
  {
    forall e | p(e) && e in Run(c, days, steps[..at[0]]).rows && e in Run(c, days, steps[..at[|at| - 1]]).rows
      ensures e in out
    {
      PresentBetween(c, days, steps, at, e);
    }
  }

  lemma TablesAt(c: Chain, days: int, steps: seq<Step>, at: seq<nat>)
    requires Points(steps, 0, at)
    ensures forall j :: 0 <= j < |at| ==> Table(ViewsAt(c, days, steps, at)[j].rows)
  {
    forall j | 0 <= j < |at|
      ensures Table(ViewsAt(c, days, steps, at)[j].rows)
    {
      RunTable(c, days, steps[..at[j]]);
    }
  }

  /**
   * Export during any run of appends and prunes: it gives entries of the history only, with strictly
   * increasing IDs, up to the first the callback fails on, and once it is done every matching entry
   * that was in the log at its first query and still at its last.
   */
  method ExportRun(c: Chain, days: int, steps: seq<Step>, at: seq<nat>, p: Event -> bool, fails: Event -> bool)
      returns (out: seq<Event>, ok: bool, made: nat, finished: bool)
    requires Points(steps, 0, at)
    ensures made <= |at| && Ordered(out) && forall e :: e in out ==> p(e) && e in History(c, steps)
    ensures if ok then NoneFails(out, fails) else out != [] && fails(out[|out| - 1]) && NoneFails(out[..|out| - 1], fails)
    ensures ok && finished ==> made > 0 && Covers(c, days, steps, at[0], at[made - 1], p, out)
  {
    TablesAt(c, days, steps, at);
    out, ok, made, finished := ExportDuring(ViewsAt(c, days, steps, at), p, fails);
    ViewsPrefix(c, days, steps, at, made);
    AllFromHistory(c, days, steps, at[..made], p, fails, out, ok);
    if ok && finished { CompleteCovers(c, days, steps, at[..made], p, out); }
  }

  // ---- An intact log that is reported broken ----

  function Copies(e: Event, n: nat): seq<Step> { if n == 0 then [] else Copies(e, n - 1) + [Append(e)] }

  lemma {:induction false} CopiesPrefix(e: Event, n: nat, m: nat)
    requires m <= n
    ensures |Copies(e, n)| == n && Copies(e, n)[..m] == Copies(e, m)
  {
    if m < n { CopiesPrefix(e, n - 1, m); } else if n > 0 { CopiesPrefix(e, n - 1, n - 1); }
  }

  lemma {:induction false} CopiesRun(c: Chain, days: int, e: Event, n: nat)
    ensures var log := Run(c, days, Copies(e, n));
            log.anchor == Genesis(c) && |log.rows| == n && Appends(Copies(e, n)) == n && forall i :: 0 <= i < n ==> log.rows[i].time == e.time
  {
    if n > 0 {
      CopiesRun(c, days, e, n - 1);
      assert Copies(e, n)[..|Copies(e, n)| - 1] == Copies(e, n - 1);
    }
  }

  /** The shortest retention the settings allow, in days. */
  const MIN_RETENTION_DAYS: int := 30

  /** 501 entries and, 40 days later, a new one and a prune, which keeps the new one only. */
  function ExampleRun(e: Event): seq<Step> {
    Copies(e.(time := 0), 501) + [Append(e.(time := 40 * DAY)), Prune(40 * DAY)]
  }

  lemma ExamplePrefixes(e: Event)
    ensures var steps, past := ExampleRun(e), e.(time := 0);
            |steps| == 503 && steps[..0] == [] && steps[..500] == Copies(past, 500)
            && steps[..502] == Copies(past, 501) + [Append(e.(time := 40 * DAY))] && steps[..503] == steps
  {
    CopiesPrefix(e.(time := 0), 501, 500);
    CopiesPrefix(e.(time := 0), 501, 501);
    var steps := ExampleRun(e);
    assert steps[..500] == Copies(e.(time := 0), 501)[..500];
  }

  /** The log before the prune: nothing removed, and 501 of its 502 entries expired. */
  lemma ExampleLog(c: Chain, days: int, e: Event)
    ensures |ExampleRun(e)| == 503
    ensures var log := Run(c, days, ExampleRun(e)[..502]);
            log.anchor == Genesis(c) && |log.rows| == 502 && ExpiredCount(log.rows, 10 * DAY) == 501
  {
    var past := e.(time := 0);
    ExamplePrefixes(e);
    CopiesRun(c, days, past, 501);
    var added := ExampleRun(e)[..502];
    assert added[..|added| - 1] == Copies(past, 501);
    var log := Run(c, days, added);
    assert |log.rows| == 502 && log.rows[501].time == 40 * DAY && log.rows[500].time == 0;
  }

  lemma ExampleMarks(c: Chain, e: Event)
    ensures var steps, days := ExampleRun(e), MIN_RETENTION_DAYS;
            && |steps| == 503 && MarkAt(c, days, steps, 0) == Mark(0, 0) && MarkAt(c, days, steps, 500) == Mark(0, 500)
            && MarkAt(c, days, steps, 503).k == 501 && MarkAt(c, days, steps, 503).n > 501
  {
    var steps, past, days := ExampleRun(e), e.(time := 0), MIN_RETENTION_DAYS;
    ExamplePrefixes(e);
    ExampleLog(c, days, e);
    CopiesRun(c, days, past, 500);
    RunStep(c, days, steps, 502);
    RunIsHistorySuffix(c, days, steps[..502]);
    SinceChained(c, History(c, steps[..502]), 501);
    PruneSince(c, History(c, steps[..502]), 0, 10 * DAY);
    AppendsGrow(steps, 502, 503);
  }

  /** Its second page comes when the entries it has not read yet but one are gone. */
  lemma ExampleOvertakes(c: Chain, e: Event)
    ensures |ExampleRun(e)| == 503 && Points(ExampleRun(e), 0, [500, 503])
    ensures Overtakes(MarkAt(c, MIN_RETENTION_DAYS, ExampleRun(e), 0).k, MarksAt(c, MIN_RETENTION_DAYS, ExampleRun(e), [500, 503]))
  {
    ExampleMarks(c, e);
    var marks := MarksAt(c, MIN_RETENTION_DAYS, ExampleRun(e), [500, 503]);
    assert marks[0] == Mark(0, 500);
    assert Overtaken(0, marks, 1);
  }

  /**
   * A walk that reads its first page of 500 after 500 entries were written, and the next one when 502
   * were written and the first 501 pruned, reports this intact log as broken.
   */
  method OvertakenExample(c: Chain, e: Event) returns (v: Verification, finished: bool)
    ensures finished && !v.ok && v.reason == Missing
    ensures var log := Run(c, MIN_RETENTION_DAYS, ExampleRun(e)); Chained(c, log.anchor, log.rows)
  {
    var steps := ExampleRun(e);
    ExampleOvertakes(c, e);
    RunIsHistorySuffix(c, MIN_RETENTION_DAYS, steps);
    SinceChained(c, History(c, steps), Run(c, MIN_RETENTION_DAYS, steps).anchor.lastId);
    v, finished := VerifyRun(c, MIN_RETENTION_DAYS, steps, 0, [500, 503]);
  }
}
