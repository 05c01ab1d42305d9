// The open coalescing windows of a service, as the sections under its mutex change
// them (internal/auditlog/coalesce.go).
module Refusals {
  import opened Calendar
  import opened AuditEvent
  import opened Coalesce

  type Windows = map<string, Window>

  // ---- Counts ----

  /** The actions a bag of events stands for. */
  ghost function Count(m: multiset<Event>): int
    decreases |m|
  {
    if m == multiset{} then 0 else var e :| e in m; e.count + Count(m - multiset{e})
  }

  lemma Rearranged(m: multiset<Event>, e: Event, x: Event)
    requires x in m
    ensures m + multiset{e} - multiset{x} == m - multiset{x} + multiset{e} && m - multiset{x} + multiset{x} == m
  {
  }

  lemma {:induction false} CountOne(m: multiset<Event>, e: Event)
    ensures Count(m + multiset{e}) == Count(m) + e.count
    decreases |m|
  {
    var sum := m + multiset{e};
    assert e in sum;
    var x :| x in sum && Count(sum) == x.count + Count(sum - multiset{x});
    if x == e {
      assert sum - multiset{e} == m;
    } else {
      Rearranged(m, e, x);
      CountOne(m - multiset{x}, e);
      CountOne(m - multiset{x}, x);
    }
  }

  lemma {:induction false} CountAdd(a: multiset<Event>, b: multiset<Event>)
    ensures Count(a + b) == Count(a) + Count(b)
    decreases |b|
  {
    if b == multiset{} {
      assert a + b == a;
    } else {
      var e :| e in b;
      var rest := b - multiset{e};
      CountAdd(a, rest);
      CountOne(a + rest, e);
      CountOne(rest, e);
      assert a + b == a + rest + multiset{e} && b == rest + multiset{e};
    }
  }

  lemma CountSingle(e: Event)
    ensures Count(multiset{e}) == e.count
  {
    CountOne(multiset{}, e);
    assert multiset{} + multiset{e} == multiset{e};
  }

  /** The refusals suppressed in the open windows. */
  ghost function Suppressed(ws: Windows): nat
    decreases |ws|
  {
    if ws == map[] then 0
    else
      var k :| k in ws;
      assert k !in ws - {k};
      RemoveShrinks(ws, k);
      ws[k].suppressed + Suppressed(ws - {k})
  }

  lemma RemoveShrinks(ws: Windows, k: string)
    requires k in ws
    ensures |ws - {k}| == |ws| - 1
  {
    assert (ws - {k}).Keys == ws.Keys - {k};
    assert |ws.Keys - {k}| == |ws.Keys| - 1;
    assert |ws| == |ws.Keys| && |ws - {k}| == |(ws - {k}).Keys|;
  }

  lemma {:induction false} SuppressedRemove(ws: Windows, k: string)
    requires k in ws
    ensures Suppressed(ws) == ws[k].suppressed + Suppressed(ws - {k})
    decreases |ws|
  {
    var x :| x in ws && Suppressed(ws) == ws[x].suppressed + Suppressed(ws - {x});
    if x != k {
      RemoveShrinks(ws, x);
      RemoveShrinks(ws, k);
      SuppressedRemove(ws - {x}, k);
      SuppressedRemove(ws - {k}, x);
      assert ws - {x} - {k} == ws - {k} - {x};
    }
  }

  lemma SuppressedPut(ws: Windows, k: string, w: Window)
    requires k !in ws
    ensures Suppressed(ws[k := w]) == Suppressed(ws) + w.suppressed
  {
    SuppressedRemove(ws[k := w], k);
    assert ws[k := w] - {k} == ws;
  }

  // ---- Taking windows ----

  predicate SortedByTime(out: seq<Event>) { forall i, j :: 0 <= i < j < |out| ==> out[i].time <= out[j].time }

  /** The summary of a window, or nothing when it suppressed nothing. */
  function SummaryOf(w: Window): seq<Event> { if w.suppressed == 0 then [] else [Summary(w)] }

  /** The summaries of the windows of keys, in that order. */
  ghost function Summaries(ws: Windows, keys: seq<string>): seq<Event>
    requires forall k :: k in keys ==> k in ws
  {
    if keys == [] then [] else Summaries(ws, keys[..|keys| - 1]) + SummaryOf(ws[keys[|keys| - 1]])
  }

  /** keys lists the members of s once each. */
  ghost predicate Lists(keys: seq<string>, s: set<string>) {
    (forall k :: k in keys <==> k in s) && forall i, j :: 0 <= i < j < |keys| ==> keys[i] != keys[j]
  }

  /** takeWindows removed the windows closed, giving their summaries oldest first. */
  ghost predicate Taken(ws: Windows, closed: set<string>, keys: seq<string>, out: seq<Event>) {
    && closed <= ws.Keys && Lists(keys, closed)
    && multiset(out) == multiset(Summaries(ws, keys)) && SortedByTime(out)
  }

  lemma SummaryKeepsCount(w: Window)
    requires w.suppressed > 0
    ensures Summary(w).count == w.suppressed
  {
  }

  lemma SummaryCount(w: Window)
    ensures Count(multiset(SummaryOf(w))) == w.suppressed
  {
    if w.suppressed > 0 {
      SummaryKeepsCount(w);
      CountSingle(Summary(w));
      assert multiset(SummaryOf(w)) == multiset{Summary(w)};
    }
  }

  /** What is left once the window of one more key is taken. */
  lemma LeftAfter(ws: Windows, init: seq<string>, k: string)
    requires k in ws && k !in init
    ensures var left := ws - set x | x in init;
            k in left && left[k] == ws[k] && left - {k} == ws - set x | x in init + [k]
  {
  }

  lemma SummariesMore(ws: Windows, keys: seq<string>, k: string)
    requires (forall x :: x in keys ==> x in ws) && k in ws
    ensures Summaries(ws, keys + [k]) == Summaries(ws, keys) + SummaryOf(ws[k])
  {
    assert (keys + [k])[..|keys|] == keys;
  }

  lemma SummariesMoreCount(ws: Windows, init: seq<string>, k: string)
    requires (forall x :: x in init ==> x in ws) && k in ws
    ensures Count(multiset(Summaries(ws, init + [k]))) == Count(multiset(Summaries(ws, init))) + ws[k].suppressed
  {
    SummariesMore(ws, init, k);
    SummaryCount(ws[k]);
    CountAdd(multiset(Summaries(ws, init)), multiset(SummaryOf(ws[k])));
  }

  lemma {:induction false} SummariesCount(ws: Windows, keys: seq<string>)
    requires (forall k :: k in keys ==> k in ws) && forall i, j :: 0 <= i < j < |keys| ==> keys[i] != keys[j]
    ensures Suppressed(ws) == Suppressed(ws - set k | k in keys) + Count(multiset(Summaries(ws, keys)))
  {
    if keys == [] {
      assert ws - (set k | k in keys) == ws;
    } else {
      var init, k := keys[..|keys| - 1], keys[|keys| - 1];
      assert keys == init + [k];
      SummariesCount(ws, init);
      LeftAfter(ws, init, k);
      SuppressedRemove(ws - (set x | x in init), k);
      SummariesMoreCount(ws, init, k);
    }
  }

  /** Taking windows moves their suppressed refusals into the summaries. */
  lemma TakenCount(ws: Windows, closed: set<string>, keys: seq<string>, out: seq<Event>)
    requires Taken(ws, closed, keys, out)
    ensures Suppressed(ws) == Suppressed(ws - closed) + Count(multiset(out))
  {
    SummariesCount(ws, keys);
    assert (set k | k in keys) == closed;
  }

  // ---- Coalescing one refusal ----

  predicate Counts(w: Window, e: Event) { e.time >= w.since && e.time - w.since < COALESCE_WINDOW }

  /** e is counted into the window of its caller. */
  predicate Joins(ws: Windows, e: Event) { RefusalKey(e) in ws && Counts(ws[RefusalKey(e)], e) }

  /** The windows without the one e replaces. */
  function Others(ws: Windows, e: Event): Windows { ws - {RefusalKey(e)} }

  function OwnSummary(ws: Windows, e: Event): seq<Event> {
    if RefusalKey(e) in ws then SummaryOf(ws[RefusalKey(e)]) else []
  }

  /** The section of coalesce under the mutex, for a refusal e. */
  ghost predicate Coalesced(ws: Windows, e: Event, keys: seq<string>, ws': Windows, flush: seq<Event>)
    requires e.count >= 0
  {
    if Joins(ws, e) then
      ws' == ws[RefusalKey(e) := Add(ws[RefusalKey(e)], e)] && flush == []
    else if |Others(ws, e)| >= MAX_COALESCE_KEYS then
      && |flush| >= |OwnSummary(ws, e)| && flush[..|OwnSummary(ws, e)|] == OwnSummary(ws, e)
      && Taken(Others(ws, e), Others(ws, e).Keys, keys, flush[|OwnSummary(ws, e)|..])
      && ws' == map[RefusalKey(e) := Opened(e)]
    else
      ws' == Others(ws, e)[RefusalKey(e) := Opened(e)] && flush == OwnSummary(ws, e)
  }

  lemma AddSuppresses(w: Window, e: Event)
    requires e.count >= 0
    ensures Add(w, e).suppressed == w.suppressed + e.count
  {
  }

  /** Replacing the window of a key. */
  lemma ReplaceCount(ws: Windows, key: string, w: Window)
    requires key in ws
    ensures Suppressed(ws[key := w]) == Suppressed(ws) - ws[key].suppressed + w.suppressed
  {
    SuppressedRemove(ws, key);
    SuppressedPut(ws - {key}, key, w);
    assert (ws - {key})[key := w] == ws[key := w];
  }

  /** The windows of others and the summary of the own window hold every count. */
  lemma OthersCount(ws: Windows, e: Event)
    ensures Suppressed(ws) == Suppressed(Others(ws, e)) + Count(multiset(OwnSummary(ws, e)))
  {
    var key := RefusalKey(e);
    if key in ws {
      SuppressedRemove(ws, key);
      SummaryCount(ws[key]);
    } else {
      assert Others(ws, e) == ws;
    }
  }

  lemma OnlyWindowCount(key: string, w: Window)
    ensures Suppressed(map[key := w]) == w.suppressed
  {
    SuppressedPut(map[], key, w);
    assert map[][key := w] == map[key := w];
  }

  lemma JoinedCount(own: seq<Event>, out: seq<Event>, flush: seq<Event>)
    requires |flush| >= |own| && flush[..|own|] == own && flush[|own|..] == out
    ensures Count(multiset(flush)) == Count(multiset(own)) + Count(multiset(out))
  {
    assert flush == own + out;
    CountAdd(multiset(own), multiset(out));
  }

  lemma AllTakenCount(ws: Windows, keys: seq<string>, out: seq<Event>)
    requires Taken(ws, ws.Keys, keys, out)
    ensures Count(multiset(out)) == Suppressed(ws)
  {
    TakenCount(ws, ws.Keys, keys, out);
    assert ws - ws.Keys == map[];
  }

  lemma FlushAllCount(rest: Windows, key: string, w: Window, own: seq<Event>, keys: seq<string>, flush: seq<Event>)
    requires w.suppressed == 0 && |flush| >= |own| && flush[..|own|] == own && Taken(rest, rest.Keys, keys, flush[|own|..])
    ensures Suppressed(map[key := w]) == 0
    ensures Count(multiset(flush)) == Count(multiset(own)) + Suppressed(rest)
  {
    var out := flush[|own|..];
    AllTakenCount(rest, keys, out);
    JoinedCount(own, out, flush);
    OnlyWindowCount(key, w);
  }

  /**
   * Coalescing keeps every count: a joined refusal is suppressed, an opening one is
   * still to be stored, and what leaves the windows is in the summaries.
   */
  lemma CoalescedCount(ws: Windows, e: Event, keys: seq<string>, ws': Windows, flush: seq<Event>)
    requires e.count >= 0 && Coalesced(ws, e, keys, ws', flush)
    ensures Suppressed(ws') + Count(multiset(flush)) == Suppressed(ws) + if Joins(ws, e) then e.count else 0
  {
    if Joins(ws, e) {
      AddSuppresses(ws[RefusalKey(e)], e);
      ReplaceCount(ws, RefusalKey(e), Add(ws[RefusalKey(e)], e));
    } else {
      OthersCount(ws, e);
      if |Others(ws, e)| >= MAX_COALESCE_KEYS {
        FlushAllCount(Others(ws, e), RefusalKey(e), Opened(e), OwnSummary(ws, e), keys, flush);
      } else {
        SuppressedPut(Others(ws, e), RefusalKey(e), Opened(e));
      }
    }
  }

  /** The index of windows stays bounded. */
  lemma CoalescedBounded(ws: Windows, e: Event, keys: seq<string>, ws': Windows, flush: seq<Event>)
    requires e.count >= 0 && Coalesced(ws, e, keys, ws', flush) && |ws| <= MAX_COALESCE_KEYS
    ensures |ws'| <= MAX_COALESCE_KEYS
  {
    var key, rest := RefusalKey(e), Others(ws, e);
    if Joins(ws, e) {
      assert ws'.Keys == ws.Keys;
      assert |ws'| == |ws'.Keys| && |ws| == |ws.Keys|;
    } else if |rest| < MAX_COALESCE_KEYS {
      assert ws'.Keys == rest.Keys + {key};
      assert |ws'| == |ws'.Keys| && |rest| == |rest.Keys|;
    }
  }

  // ---- The service's windows ----

  /** The windows of a flush at now, or all of them. */
  predicate Closed(w: Window, now: Instant, all: bool) { all || now - w.since >= COALESCE_WINDOW || now < w.since }

  ghost function ClosedKeys(ws: Windows, now: Instant, all: bool): set<string> {
    set k | k in ws && Closed(ws[k], now, all)
  }

  /** done are the closed windows among those already visited. */
  ghost predicate Walked(ws: Windows, now: Instant, all: bool, left: set<string>, done: set<string>) {
    left <= ws.Keys && done == ClosedKeys(ws, now, all) - left
  }

  lemma WalkOne(ws: Windows, now: Instant, all: bool, left: set<string>, done: set<string>, k: string)
    requires Walked(ws, now, all, left, done) && k in left
    ensures k in ws - done && (ws - done)[k] == ws[k] && k !in done
    ensures Walked(ws, now, all, left - {k}, if Closed(ws[k], now, all) then done + {k} else done)
    ensures ws - done - {k} == ws - (done + {k})
  {
  }

  lemma ListsMore(keys: seq<string>, s: set<string>, k: string)
    requires Lists(keys, s) && k !in s
    ensures Lists(keys + [k], s + {k})
  {
  }

  lemma TakeOne(ws: Windows, closed: set<string>, keys: seq<string>, out: seq<Event>, k: string, out': seq<Event>)
    requires Taken(ws, closed, keys, out) && k in ws && k !in closed && SortedByTime(out')
    requires multiset(out') == multiset(out) + multiset(SummaryOf(ws[k]))
    ensures Taken(ws, closed + {k}, keys + [k], out')
  {
    ListsMore(keys, closed, k);
    SummariesMore(ws, keys, k);
  }

  lemma Inserted(out: seq<Event>, i: nat, e: Event)
    requires SortedByTime(out) && i <= |out|
    requires (forall j :: 0 <= j < i ==> out[j].time <= e.time) && (i < |out| ==> e.time < out[i].time)
    ensures SortedByTime(out[..i] + [e] + out[i..])
    ensures multiset(out[..i] + [e] + out[i..]) == multiset(out) + multiset{e}
  {
    assert out == out[..i] + out[i..];
  }

  method InsertByTime(out: seq<Event>, e: Event) returns (r: seq<Event>)
    requires SortedByTime(out)
    ensures SortedByTime(r) && multiset(r) == multiset(out) + multiset{e}
  {
    var i := 0;
    while i < |out| && out[i].time <= e.time
      invariant 0 <= i <= |out|
      invariant forall j :: 0 <= j < i ==> out[j].time <= e.time
    {
      i := i + 1;
    }
    Inserted(out, i, e);
    r := out[..i] + [e] + out[i..];
  }

  method AppendSummary(out: seq<Event>, w: Window) returns (r: seq<Event>)
    requires SortedByTime(out)
    ensures SortedByTime(r) && multiset(r) == multiset(out) + multiset(SummaryOf(w))
  {
    r := out;
    if w.suppressed > 0 {
      r := InsertByTime(out, Summary(w));
    }
  }

  /** The effect of closing every window when the index is full. */
  ghost predicate FullClosed(ws: Windows, ws': Windows, keys: seq<string>, out: seq<Event>) {
    if |ws| >= MAX_COALESCE_KEYS then Taken(ws, ws.Keys, keys, out) && ws' == map[] else ws' == ws && out == []
  }

  lemma OpensCoalesced(ws: Windows, e: Event, left: Windows, keys: seq<string>, out: seq<Event>)
    requires e.count >= 0 && !Joins(ws, e) && FullClosed(Others(ws, e), left, keys, out)
    ensures Coalesced(ws, e, keys, left[RefusalKey(e) := Opened(e)], OwnSummary(ws, e) + out)
  {
    var own := OwnSummary(ws, e);
    assert (own + out)[..|own|] == own && (own + out)[|own|..] == out;
  }

  class Index {
    var windows: Windows

    constructor ()
      ensures windows == map[]
    {
      windows := map[];
    }

    /** takeWindows, for the windows closed at now. */
    method Take(now: Instant, all: bool) returns (out: seq<Event>, ghost keys: seq<string>)
      modifies this
      ensures Taken(old(windows), ClosedKeys(old(windows), now, all), keys, out)
      ensures windows == old(windows) - ClosedKeys(old(windows), now, all)
    {
      ghost var before := windows;
      ghost var done := {};
      out, keys := [], [];
      var left := windows.Keys;
      while left != {}
        invariant Walked(before, now, all, left, done) && windows == before - done
        invariant Taken(before, done, keys, out)
        decreases left
      {
        var k :| k in left;
        WalkOne(before, now, all, left, done, k);
        if Closed(windows[k], now, all) {
          ghost var was := out;
          out := AppendSummary(out, windows[k]);
          TakeOne(before, done, keys, was, k, out);
          done, keys := done + {k}, keys + [k];
          windows := windows - {k};
        }
        left := left - {k};
      }
    }

    /** Every window is closed when the index is full. */
    method CloseAllWhenFull() returns (out: seq<Event>, ghost keys: seq<string>)
      modifies this
      ensures FullClosed(old(windows), windows, keys, out)
    {
      out, keys := [], [];
      if |windows| >= MAX_COALESCE_KEYS {
        out, keys := Take(0, true);
        assert ClosedKeys(old(windows), 0, true) == old(windows).Keys;
      }
    }

    /** coalesce: whether the refusal e is counted, and the summaries to submit first. */
    method Coalesce(e: Event) returns (counted: bool, flush: seq<Event>, ghost keys: seq<string>)
      requires IsRefusal(e) && e.count >= 0
      modifies this
      ensures Coalesced(old(windows), e, keys, windows, flush) && counted == Joins(old(windows), e)
    {
      var key := RefusalKey(e);
      if key in windows && e.time >= windows[key].since && e.time - windows[key].since < COALESCE_WINDOW {
        windows := windows[key := Add(windows[key], e)];
        return true, [], [];
      }
      counted := false;
      flush := CloseOwn(e);
      var out;
      out, keys := CloseAllWhenFull();
      OpensCoalesced(old(windows), e, windows, keys, out);
      flush := flush + out;
      windows := windows[key := Opened(e)];
    }

    /** The window that e replaces is closed first. */
    method CloseOwn(e: Event) returns (flush: seq<Event>)
      modifies this
      ensures windows == old(Others(windows, e)) && flush == old(OwnSummary(windows, e))
    {
      var key := RefusalKey(e);
      flush := [];
      if key in windows && windows[key].suppressed > 0 { flush := [Summary(windows[key])]; }
      windows := windows - {key};
    }
  }
}
