// The windows of every run of the audit log's writer (internal/auditlog/auditlog.go,
// internal/auditlog/coalesce.go): each of them stands for normalised refusals, so no summary
// of a run loses anything.
module AuditSummaries {
  import opened Calendar
  import opened AuditEvent
  import opened Coalesce
  import opened Refusals
  import opened AuditWriter

  /** An event as Record hands it to coalesce: normalised, with a time a time.Time can have. */
  ghost predicate Good(e: Event) { Stored(e) && Representable(e.time) }

  /** A window of refusals that is filed under k. */
  ghost predicate GoodWindow(k: string, w: Window) { Sound(w) && Stored(w.first) && IsRefusal(w.first) && RefusalKey(w.first) == k }

  /** Every window is under the key of its refusals. */
  ghost predicate AllGood(ws: Windows) { forall k :: k in ws ==> GoodWindow(k, ws[k]) }

  /** ... and has left out at most n names. */
  ghost predicate AtMost(ws: Windows, n: nat) { forall k :: k in ws ==> ws[k].moreNames <= n }

  ghost predicate GoodWindows(ws: Windows, n: nat) { AllGood(ws) && AtMost(ws, n) }

  lemma AddKeepsFirst(w: Window, e: Event)
    requires e.count >= 0
    ensures Add(w, e).first == w.first && Add(w, e).moreNames <= w.moreNames + 1
  {
  }

  lemma JoinedGood(k: string, w: Window, e: Event)
    requires GoodWindow(k, w) && w.moreNames < INT_MAX && Good(e)
    ensures GoodWindow(k, Add(w, e))
  {
    AddKeepsFirst(w, e);
    AddSound(w, e);
  }

  lemma OpenedGood(e: Event)
    requires Good(e) && IsRefusal(e)
    ensures GoodWindow(RefusalKey(e), Opened(e)) && Opened(e).moreNames == 0
  {
    OpenedSound(e);
  }

  lemma PutAllGood(ws: Windows, k: string, w: Window)
    requires AllGood(ws) && GoodWindow(k, w)
    ensures AllGood(ws[k := w])
  {
    var more := ws[k := w];
    forall x | x in more
      ensures GoodWindow(x, more[x])
    {
      if x != k { assert GoodWindow(x, ws[x]); }
    }
  }

  lemma PutAtMost(ws: Windows, k: string, w: Window, n: nat)
    requires AtMost(ws, n) && w.moreNames <= n + 1
    ensures AtMost(ws[k := w], n + 1)
  {
  }

  lemma PutGood(ws: Windows, k: string, w: Window, n: nat)
    requires GoodWindows(ws, n) && GoodWindow(k, w) && w.moreNames <= n + 1
    ensures GoodWindows(ws[k := w], n + 1)
  {
    PutAllGood(ws, k, w);
    PutAtMost(ws, k, w, n);
  }

  lemma JoinGood(ws: Windows, e: Event, n: nat)
    requires Good(e) && n < INT_MAX && GoodWindows(ws, n) && RefusalKey(e) in ws
    ensures GoodWindows(ws[RefusalKey(e) := Add(ws[RefusalKey(e)], e)], n + 1)
  {
    var k := RefusalKey(e);
    JoinedGood(k, ws[k], e);
    AddKeepsFirst(ws[k], e);
    PutGood(ws, k, Add(ws[k], e), n);
  }

  lemma RemovedGood(ws: Windows, ks: set<string>, n: nat)
    requires GoodWindows(ws, n)
    ensures GoodWindows(ws - ks, n)
  {
  }

  lemma OpenGood(ws: Windows, e: Event, n: nat)
    requires Good(e) && IsRefusal(e) && GoodWindows(ws, n)
    ensures GoodWindows(ws[RefusalKey(e) := Opened(e)], n + 1)
  {
    OpenedGood(e);
    PutGood(ws, RefusalKey(e), Opened(e), n);
  }

  lemma CoalescedGood(ws: Windows, e: Event, keys: seq<string>, ws': Windows, flush: seq<Event>, n: nat)
    requires Good(e) && IsRefusal(e) && n < INT_MAX && GoodWindows(ws, n) && Coalesced(ws, e, keys, ws', flush)
    ensures GoodWindows(ws', n + 1)
  {
    if Joins(ws, e) {
      JoinGood(ws, e, n);
    } else {
      RemovedGood(ws, {RefusalKey(e)}, n);
      OpenGood(Others(ws, e), e, n);
      OpenGood(map[], e, n);
    }
  }

  /** The refusals counted in a run. */
  function Coalescings(steps: seq<Step>): nat {
    if steps == [] then 0 else (if steps[0].Coalesce? then 1 else 0) + Coalescings(steps[1..])
  }

  /** Record normalises every event first. */
  ghost predicate Normalised(steps: seq<Step>) { forall i :: 0 <= i < |steps| && steps[i].Record? ==> Good(steps[i].e) }

  ghost predicate GoodState(s: State, n: nat) {
    GoodWindows(s.windows, n) && forall i :: 0 <= i < |s.callers| && s.callers[i].Recording? ==> Good(s.callers[i].e)
  }

  lemma CallersGood(s: State, step: Step, n: nat)
    requires Enabled(s, step) && GoodState(s, n) && (step.Record? ==> Good(step.e))
    ensures forall i :: 0 <= i < |Apply(s, step).callers| && Apply(s, step).callers[i].Recording? ==> Good(Apply(s, step).callers[i].e)
  {
  }

  lemma MoreGood(ws: Windows, n: nat)
    requires GoodWindows(ws, n)
    ensures GoodWindows(ws, n + 1)
  {
  }

  lemma WindowsGood(s: State, step: Step, n: nat)
    requires Enabled(s, step) && GoodState(s, n) && n < INT_MAX
    ensures GoodWindows(Apply(s, step).windows, if step.Coalesce? then n + 1 else n)
  {
    if step.Coalesce? {
      var e := s.callers[step.c].e;
      if IsRefusal(e) {
        CoalescedGood(s.windows, e, step.keys, step.windows, step.flush, n);
      } else {
        MoreGood(s.windows, n);
      }
    }
  }

  lemma {:induction false} RunsGood(s: State, steps: seq<Step>, s': State, n: nat)
    requires Runs(s, steps, s') && GoodState(s, n) && Normalised(steps) && n + Coalescings(steps) < INT_MAX
    ensures GoodState(s', n + Coalescings(steps))
    decreases |steps|
  {
    if steps != [] {
      CallersGood(s, steps[0], n);
      WindowsGood(s, steps[0], n);
      RunsGood(Apply(s, steps[0]), steps[1..], s', if steps[0].Coalesce? then n + 1 else n);
    }
  }

  /**
   * In every run, of fewer refusals than an int counts, the summary of every open window is what the
   * window stands for: normalising it changes nothing, no target is lost to the cap, and its key is
   * the one the window is filed under.
   */
  lemma NoSummaryLosesAnything(s0: State, steps: seq<Step>, s: State, k: string)
    requires Runs(s0, steps, s) && Normalised(steps) && Coalescings(steps) < INT_MAX
    requires s0.windows == map[] && s0.callers == [] && k in s.windows && s.windows[k].suppressed > 0
    ensures var w := s.windows[k];
            Summary(w) == SummaryDraft(w) && Stored(Summary(w)) && Summary(w).count == w.suppressed && RefusalKey(Summary(w)) == k
  {
    RunsGood(s0, steps, s, 0);
    var w := s.windows[k];
    assert GoodWindow(k, w);
    SummaryKeepsEverything(w);
    SummaryKeepsKey(w);
  }
}
