// The stored audit log, its verification, export and listing, and every run of
// appends and prunes (internal/auditlog/auditlog.go; the store's transactions are
// those of internal/store/auditlog.go).
module AuditLog {
  import opened Calendar
  import opened AuditEvent
  import opened AuditChain

  const WALK_BATCH: nat := 500
  const DEFAULT_LIST_LIMIT: int := 100
  const MAX_LIST_LIMIT: int := 1000
  const RETENTION_SLACK: int := DAY

  /** GenesisHash: 64 zeros. */
  const GENESIS_HASH: string := "0000000000000000000000000000000000000000000000000000000000000000"

  /** Where the chain starts: the last entry retention removed, or ID 0. */
  datatype Anchor = Anchor(lastId: nat, lastHash: string, lastTime: Instant)

  datatype Log = Log(anchor: Anchor, rows: seq<Event>)

  /**
   * How entries are chained: h is the hash, doc the hashed document of an entry and
   * genesis the hash before the first one (see CanonicalChain for the program's).
   */
  datatype Chain = Chain(h: Hash, doc: Event -> string, genesis: string)

  /** The anchor of a log that was never pruned. */
  function Genesis(c: Chain): Anchor { Anchor(0, c.genesis, 0) }

  /** The hashed document of an entry: it leaves the hash out. */
  function Document(c: Chain, e: Event): string { c.doc(e.(hash := "")) }

  /** ChainHash. */
  function ChainHash(c: Chain, prev: string, e: Event): string { c.h(prev + Document(c, e)) }

  /** check: e follows the entry (prevId, prevHash). */
  predicate Follows(c: Chain, prevId: int, prevHash: string, e: Event) {
    e.id == prevId + 1 && e.hash == ChainHash(c, prevHash, e)
  }

  /** The entry before rows[i]: the anchor before the first one. */
  function PrevId(a: Anchor, rows: seq<Event>, i: nat): int
    requires i <= |rows|
  {
    if i == 0 then a.lastId else rows[i - 1].id
  }

  function PrevHash(a: Anchor, rows: seq<Event>, i: nat): string
    requires i <= |rows|
  {
    if i == 0 then a.lastHash else rows[i - 1].hash
  }

  predicate FollowsAt(c: Chain, a: Anchor, rows: seq<Event>, i: nat)
    requires i < |rows|
  {
    Follows(c, PrevId(a, rows, i), PrevHash(a, rows, i), rows[i])
  }

  /** The first n entries each follow their predecessor, the first one the anchor. */
  ghost predicate ChainedTo(c: Chain, a: Anchor, rows: seq<Event>, n: nat)
    requires n <= |rows|
  {
    forall i :: 0 <= i < n ==> FollowsAt(c, a, rows, i)
  }

  ghost predicate Chained(c: Chain, a: Anchor, rows: seq<Event>) { ChainedTo(c, a, rows, |rows|) }

  function HeadId(log: Log): int { PrevId(log.anchor, log.rows, |log.rows|) }

  function HeadHash(log: Log): string { PrevHash(log.anchor, log.rows, |log.rows|) }

  /** Rows as the table returns them: by increasing ID. */
  ghost predicate Ordered(rows: seq<Event>) {
    forall i, j :: 0 <= i < j < |rows| ==> rows[i].id < rows[j].id
  }

  // ---- Reading pages ----

  predicate Selected(e: Event, p: Event -> bool, before: int, after: int) {
    p(e) && (before <= 0 || e.id < before) && (after <= 0 || e.id > after)
  }

  /** The rows matching p between two IDs (0: no bound), oldest first. */
  function Select(rows: seq<Event>, p: Event -> bool, before: int, after: int): seq<Event> {
    if rows == [] then []
    else (if Selected(rows[0], p, before, after) then [rows[0]] else []) + Select(rows[1..], p, before, after)
  }

  function Reverse(s: seq<Event>): (r: seq<Event>)
    ensures |r| == |s| && forall i :: 0 <= i < |s| ==> r[i] == s[|s| - 1 - i]
  {
    if s == [] then [] else Reverse(s[1..]) + [s[0]]
  }

  function Take(s: seq<Event>, n: nat): seq<Event> { if |s| <= n then s else s[..n] }

  lemma {:induction false} SelectAppend(rows: seq<Event>, e: Event, p: Event -> bool, before: int, after: int)
    ensures Select(rows + [e], p, before, after) == Select(rows, p, before, after) + if Selected(e, p, before, after) then [e] else []
  {
    if rows == [] {
      assert rows + [e] == [e];
    } else {
      SelectAppend(rows[1..], e, p, before, after);
      assert (rows + [e])[1..] == rows[1..] + [e];
    }
  }

  lemma {:induction false} SelectIn(rows: seq<Event>, p: Event -> bool, before: int, after: int)
    ensures forall e :: e in Select(rows, p, before, after) <==> e in rows && Selected(e, p, before, after)
  {
    if rows != [] {
      SelectIn(rows[1..], p, before, after);
      assert rows == [rows[0]] + rows[1..];
    }
  }

  lemma {:induction false} SelectOrdered(rows: seq<Event>, p: Event -> bool, before: int, after: int)
    requires Ordered(rows)
    ensures Ordered(Select(rows, p, before, after))
  {
    if rows != [] {
      var rest := Select(rows[1..], p, before, after);
      SelectOrdered(rows[1..], p, before, after);
      SelectIn(rows[1..], p, before, after);
      forall j | 0 <= j < |rest|
        ensures rows[0].id < rest[j].id
      {
        assert rest[j] in rest;
        var i :| 0 <= i < |rows[1..]| && rows[1..][i] == rest[j];
        assert rows[i + 1] == rest[j];
      }
    }
  }

  /** A larger lower bound below every row changes nothing. */
  lemma {:induction false} SelectAbove(rows: seq<Event>, p: Event -> bool, before: int, after: int, after': int)
    requires forall i :: 0 <= i < |rows| ==> rows[i].id > after && rows[i].id > after'
    ensures Select(rows, p, before, after) == Select(rows, p, before, after')
  {
    if rows != [] { SelectAbove(rows[1..], p, before, after, after'); }
  }

  lemma {:induction false} SelectAll(rows: seq<Event>, after: int)
    requires forall i :: 0 <= i < |rows| ==> rows[i].id > after
    ensures Select(rows, Any, 0, after) == rows
  {
    if rows != [] {
      SelectAll(rows[1..], after);
      assert rows == [rows[0]] + rows[1..];
    }
  }

  /** A first row at or below the cursor is not selected. */
  lemma SelectPast(rows: seq<Event>, p: Event -> bool, before: int, cursor: int)
    requires rows != [] && rows[0].id <= cursor && cursor > 0
    ensures Select(rows, p, before, cursor) == Select(rows[1..], p, before, cursor)
  {
  }

  lemma ResumeSkipped(rows: seq<Event>, p: Event -> bool, before: int, after: int, k: nat, cursor: int)
    requires rows != [] && Ordered(rows) && !Selected(rows[0], p, before, after) && 0 < k <= |Select(rows[1..], p, before, after)|
    requires cursor == Select(rows[1..], p, before, after)[k - 1].id && cursor > 0
    requires Select(rows[1..], p, before, cursor) == Select(rows[1..], p, before, after)[k..]
    ensures Select(rows, p, before, cursor) == Select(rows, p, before, after)[k..]
  {
    CursorAbove(rows, Select(rows[1..], p, before, after), p, before, after, k - 1);
    SelectPast(rows, p, before, cursor);
  }

  lemma ResumeTaken(rows: seq<Event>, p: Event -> bool, before: int, after: int, k: nat, cursor: int)
    requires rows != [] && Ordered(rows) && Selected(rows[0], p, before, after) && 1 < k <= |Select(rows, p, before, after)|
    requires cursor == Select(rows[1..], p, before, after)[k - 2].id && cursor > 0
    requires Select(rows[1..], p, before, cursor) == Select(rows[1..], p, before, after)[k - 1..]
    ensures Select(rows, p, before, cursor) == Select(rows, p, before, after)[k..]
  {
    SelectHead(rows, p, before, after, k);
    CursorAbove(rows, Select(rows[1..], p, before, after), p, before, after, k - 2);
    SelectPast(rows, p, before, cursor);
  }

  /** Continuing after the k-th result gives the remaining results. */
  lemma {:induction false} SelectResume(rows: seq<Event>, p: Event -> bool, before: int, after: int, k: nat, cursor: int)
    requires Ordered(rows) && 0 < k <= |Select(rows, p, before, after)|
    requires cursor == Select(rows, p, before, after)[k - 1].id && cursor > 0
    ensures Select(rows, p, before, cursor) == Select(rows, p, before, after)[k..]
  {
    if !Selected(rows[0], p, before, after) {
      assert Select(rows, p, before, after) == Select(rows[1..], p, before, after);
      SelectResume(rows[1..], p, before, after, k, cursor);
      ResumeSkipped(rows, p, before, after, k, cursor);
    } else {
      SelectHead(rows, p, before, after, k);
      if k == 1 {
        SelectPast(rows, p, before, cursor);
        SelectAbove(rows[1..], p, before, after, cursor);
      } else {
        SelectResume(rows[1..], p, before, after, k - 1, cursor);
        ResumeTaken(rows, p, before, after, k, cursor);
      }
    }
  }

  lemma SelectHead(rows: seq<Event>, p: Event -> bool, before: int, after: int, k: nat)
    requires rows != [] && Selected(rows[0], p, before, after) && 0 < k <= |Select(rows, p, before, after)|
    ensures Select(rows, p, before, after)[k..] == Select(rows[1..], p, before, after)[k - 1..]
    ensures k > 1 ==> Select(rows, p, before, after)[k - 1] == Select(rows[1..], p, before, after)[k - 2]
    ensures k == 1 ==> Select(rows, p, before, after)[k - 1] == rows[0]
  {
    assert Select(rows, p, before, after) == [rows[0]] + Select(rows[1..], p, before, after);
  }

  lemma CursorAbove(rows: seq<Event>, rest: seq<Event>, p: Event -> bool, before: int, after: int, j: nat)
    requires rows != [] && Ordered(rows) && rest == Select(rows[1..], p, before, after) && j < |rest|
    ensures rows[0].id < rest[j].id
  {
    SelectIn(rows[1..], p, before, after);
    assert rest[j] in rest;
    var i :| 0 <= i < |rows[1..]| && rows[1..][i] == rest[j];
    assert rows[i + 1] == rest[j];
  }

  /** Stopping before the k-th result gives the results ahead of it. */
  lemma {:induction false} SelectBefore(rows: seq<Event>, p: Event -> bool, before: int, k: nat)
    requires Ordered(rows) && k < |Select(rows, p, before, 0)|
    requires Select(rows, p, before, 0)[k].id > 0
    ensures Select(rows, p, Select(rows, p, before, 0)[k].id, 0) == Select(rows, p, before, 0)[..k]
  {
    var all := Select(rows, p, before, 0);
    var rest := Select(rows[1..], p, before, 0);
    var cursor := all[k].id;
    if Selected(rows[0], p, before, 0) {
      assert all == [rows[0]] + rest;
      if k == 0 {
        SelectBelow(rows[1..], p, cursor);
      } else {
        SelectBefore(rows[1..], p, before, k - 1);
        CursorAbove(rows, rest, p, before, 0, k - 1);
        assert all[..k] == [rows[0]] + rest[..k - 1];
      }
    } else {
      assert all == rest;
      SelectBefore(rows[1..], p, before, k);
      CursorAbove(rows, rest, p, before, 0, k);
      assert before <= 0 || cursor < before by {
        SelectIn(rows, p, before, 0);
        assert all[k] in all;
      }
    }
  }

  lemma {:induction false} SelectBelow(rows: seq<Event>, p: Event -> bool, before: int)
    requires before > 0 && forall i :: 0 <= i < |rows| ==> rows[i].id >= before
    ensures Select(rows, p, before, 0) == []
  {
    if rows != [] { SelectBelow(rows[1..], p, before); }
  }

  predicate Any(e: Event) { true }

  // ---- The store ----

  /** The index after the newest row recorded before cutoff (0: none). */
  function ExpiredCount(rows: seq<Event>, cutoff: Instant): (n: nat)
    ensures n <= |rows|
    ensures n > 0 ==> rows[n - 1].time < cutoff
    ensures forall i :: n <= i < |rows| ==> rows[i].time >= cutoff
  {
    if rows == [] then 0
    else if rows[|rows| - 1].time < cutoff then |rows|
    else ExpiredCount(rows[..|rows| - 1], cutoff)
  }

  function Appended(c: Chain, log: Log, e: Event): Log {
    var next := e.(id := HeadId(log) + 1);
    log.(rows := log.rows + [next.(hash := ChainHash(c, HeadHash(log), next))])
  }

  /** The anchor after entry e was the last one removed. */
  function AnchorAt(e: Event): Anchor { Anchor(if e.id < 0 then 0 else e.id, e.hash, e.time) }

  function Pruned(log: Log, cutoff: Instant): Log {
    var n := ExpiredCount(log.rows, cutoff);
    if n == 0 then log
    else Log(AnchorAt(log.rows[n - 1]), log.rows[n..])
  }

  // ---- Listing ----

  /** a comes before b in the order of a listing. */
  predicate Precedes(a: Event, b: Event, ascending: bool) { if ascending then a.id < b.id else a.id > b.id }

  /**
   * What a listing is: rows that match, in order, at most limit of them; a matching row is missing
   * only when the limit is reached, and then every row listed comes before it.
   */
  ghost predicate IsPage(rows: seq<Event>, p: Event -> bool, before: int, after: int, ascending: bool, limit: nat, list: seq<Event>) {
    && |list| <= limit
    && (forall e :: e in list ==> e in rows && Selected(e, p, before, after))
    && (Ordered(rows) ==> forall i, j :: 0 <= i < j < |list| ==> Precedes(list[i], list[j], ascending))
    && forall e :: e in rows && Selected(e, p, before, after) && e !in list ==>
         |list| == limit && (Ordered(rows) ==> forall i :: 0 <= i < |list| ==> Precedes(list[i], e, ascending))
  }

  /** The first rows of s, and the others after them, in the order of a listing. */
  lemma TakeSplits(s: seq<Event>, n: nat, k: nat, ascending: bool)
    requires (forall i, j :: 0 <= i < j < |s| ==> Precedes(s[i], s[j], ascending)) && k < |s| && s[k] !in Take(s, n)
    ensures |Take(s, n)| == n && forall i :: 0 <= i < n ==> Precedes(Take(s, n)[i], s[k], ascending)
  {
    assert forall i :: 0 <= i < |Take(s, n)| ==> Take(s, n)[i] == s[i];
    assert k >= |Take(s, n)|;
  }

  lemma PageOfSorted(rows: seq<Event>, p: Event -> bool, before: int, after: int, ascending: bool, limit: nat, s: seq<Event>)
    requires forall e :: e in s <==> e in rows && Selected(e, p, before, after)
    requires Ordered(rows) ==> forall i, j :: 0 <= i < j < |s| ==> Precedes(s[i], s[j], ascending)
    ensures IsPage(rows, p, before, after, ascending, limit, Take(s, limit))
  {
    forall e | e in s && e !in Take(s, limit)
      ensures |Take(s, limit)| == limit
      ensures Ordered(rows) ==> forall i :: 0 <= i < limit ==> Precedes(Take(s, limit)[i], e, ascending)
    {
      var k :| 0 <= k < |s| && s[k] == e;
      if Ordered(rows) { TakeSplits(s, limit, k, ascending); }
    }
  }

  lemma ReverseIn(s: seq<Event>, e: Event)
    ensures e in Reverse(s) <==> e in s
  {
    if e in s {
      var i :| 0 <= i < |s| && s[i] == e;
      assert Reverse(s)[|s| - 1 - i] == e;
    }
  }

  lemma ReverseFront(e: Event, s: seq<Event>)
    ensures Reverse([e] + s) == Reverse(s) + [e]
  {
    assert ([e] + s)[1..] == s;
  }

  /** A listing holds what it should: see IsPage. */
  lemma PageHolds(rows: seq<Event>, p: Event -> bool, before: int, after: int, ascending: bool, limit: nat)
    ensures var found := Select(rows, p, before, after);
            IsPage(rows, p, before, after, ascending, limit, Take(if ascending then found else Reverse(found), limit))
  {
    var found := Select(rows, p, before, after);
    SelectIn(rows, p, before, after);
    if Ordered(rows) { SelectOrdered(rows, p, before, after); }
    if ascending {
      PageOfSorted(rows, p, before, after, true, limit, found);
    } else {
      forall e
        ensures e in Reverse(found) <==> e in found
      {
        ReverseIn(found, e);
      }
      PageOfSorted(rows, p, before, after, false, limit, Reverse(found));
    }
  }

  lemma TakeMore(s: seq<Event>, e: Event, n: nat)
    ensures Take(s + [e], n) == if |Take(s, n)| < n then Take(s, n) + [e] else Take(s, n)
  {
  }

  method ScanUp(rows: seq<Event>, p: Event -> bool, before: int, after: int, limit: nat) returns (list: seq<Event>)
    ensures list == Take(Select(rows, p, before, after), limit)
  {
    list := [];
    for i := 0 to |rows|
      invariant list == Take(Select(rows[..i], p, before, after), limit)
    {
      assert rows[..i + 1] == rows[..i] + [rows[i]];
      SelectAppend(rows[..i], rows[i], p, before, after);
      TakeMore(Select(rows[..i], p, before, after), rows[i], limit);
      if |list| < limit && Selected(rows[i], p, before, after) { list := list + [rows[i]]; }
    }
    assert rows[..|rows|] == rows;
  }

  lemma SelectFrom(rows: seq<Event>, i: nat, p: Event -> bool, before: int, after: int)
    requires i < |rows|
    ensures var rest := Reverse(Select(rows[i + 1..], p, before, after));
            Reverse(Select(rows[i..], p, before, after)) == if Selected(rows[i], p, before, after) then rest + [rows[i]] else rest
  {
    var rest := Select(rows[i + 1..], p, before, after);
    assert rows[i..][1..] == rows[i + 1..];
    if Selected(rows[i], p, before, after) {
      assert Select(rows[i..], p, before, after) == [rows[i]] + rest;
      ReverseFront(rows[i], rest);
    } else {
      assert Select(rows[i..], p, before, after) == rest;
    }
  }

  method ScanDown(rows: seq<Event>, p: Event -> bool, before: int, after: int, limit: nat) returns (list: seq<Event>)
    ensures list == Take(Reverse(Select(rows, p, before, after)), limit)
  {
    list := [];
    for i := |rows| downto 0
      invariant list == Take(Reverse(Select(rows[i..], p, before, after)), limit)
    {
      SelectFrom(rows, i, p, before, after);
      TakeMore(Reverse(Select(rows[i + 1..], p, before, after)), rows[i], limit);
      if |list| < limit && Selected(rows[i], p, before, after) { list := list + [rows[i]]; }
    }
    assert rows[0..] == rows;
  }

  /** The table of entries and the anchor row. */
  class Store {
    const chain: Chain
    var anchor: Anchor
    var rows: seq<Event>

    constructor (chain: Chain)
      ensures this.chain == chain && View() == Log(Genesis(chain), [])
    {
      this.chain := chain;
      anchor, rows := Genesis(chain), [];
    }

    function View(): Log
      reads this
    {
      Log(anchor, rows)
    }

    /** AppendAuditEvent. */
    method Append(e: Event) returns (stored: Event)
      modifies this
      ensures View() == Appended(chain, old(View()), e)
      ensures stored == rows[|rows| - 1]
    {
      var prevId, prevHash := HeadId(View()), HeadHash(View());
      stored := e.(id := prevId + 1);
      stored := stored.(hash := ChainHash(chain, prevHash, stored));
      rows := rows + [stored];
    }

    /** PruneAuditEvents. */
    method Prune(cutoff: Instant) returns (removed: nat)
      modifies this
      ensures View() == Pruned(old(View()), cutoff)
      ensures removed == |old(rows)| - |rows|
    {
      removed := ExpiredCount(rows, cutoff);
      if removed > 0 {
        anchor := AnchorAt(rows[removed - 1]);
        rows := rows[removed..];
      }
    }

    /** ListAuditEvents: it reads the rows from one end and stops at the limit. */
    method List(p: Event -> bool, before: int, after: int, ascending: bool, limit: nat) returns (list: seq<Event>)
      ensures list == Take(if ascending then Select(rows, p, before, after) else Reverse(Select(rows, p, before, after)), limit)
    {
      if ascending { list := ScanUp(rows, p, before, after, limit); } else { list := ScanDown(rows, p, before, after, limit); }
    }
  }

  // ---- Verify ----

  datatype Reason = Intact | Missing | Altered

  datatype Verification = Verification(ok: bool, checked: nat, headId: int, headHash: string, brokenId: int, reason: Reason, warning: bool)

  /** The entries a verification walks: those after the anchor. */
  function Walk(log: Log): seq<Event> { Select(log.rows, Any, 0, log.anchor.lastId) }

  predicate AnchorTooNew(a: Anchor, now: Instant, days: int) {
    a.lastId > 0 && a.lastTime > now - days * DAY + RETENTION_SLACK
  }

  lemma {:induction false} ChainedIds(c: Chain, a: Anchor, rows: seq<Event>, n: nat, i: nat)
    requires n <= |rows| && ChainedTo(c, a, rows, n) && i <= n
    ensures PrevId(a, rows, i) == a.lastId + i
  {
    if i > 0 {
      ChainedIds(c, a, rows, n, i - 1);
      assert FollowsAt(c, a, rows, i - 1);
    }
  }

  /** A verification that has checked the first entries of walk. */
  ghost predicate Reached(c: Chain, a: Anchor, walk: seq<Event>, v: Verification) {
    && v.checked <= |walk| && ChainedTo(c, a, walk, v.checked)
    && v.headId == PrevId(a, walk, v.checked) && v.headHash == PrevHash(a, walk, v.checked)
  }

  /** A verification that stopped at the first entry that does not follow. */
  ghost predicate Stopped(c: Chain, a: Anchor, walk: seq<Event>, v: Verification) {
    && Reached(c, a, walk, v) && v.checked < |walk|
    && v.brokenId == walk[v.checked].id && !FollowsAt(c, a, walk, v.checked)
    && v.reason == if v.brokenId != v.headId + 1 then Missing else Altered
  }

  /** The inner loop of Verify, over one page of the walk. */
  method CheckPage(c: Chain, ghost a: Anchor, ghost walk: seq<Event>, list: seq<Event>, start: Verification) returns (v: Verification)
    requires Reached(c, a, walk, start) && start.reason == Intact
    requires start.checked + |list| <= |walk| && list == walk[start.checked..start.checked + |list|]
    ensures v.ok == start.ok && v.warning == start.warning
    ensures v.reason == Intact ==> Reached(c, a, walk, v) && v.checked == start.checked + |list|
    ensures v.reason != Intact ==> Stopped(c, a, walk, v)
  {
    v := start;
    var i := 0;
    while i < |list|
      invariant 0 <= i <= |list| && v.checked == start.checked + i
      invariant Reached(c, a, walk, v)
      invariant v.ok == start.ok && v.warning == start.warning && v.reason == Intact
    {
      var e := list[i];
      assert e == walk[v.checked];
      if e.id != v.headId + 1 {
        v := v.(brokenId := e.id, reason := Missing);
        return;
      }
      if ChainHash(c, v.headHash, e) != e.hash {
        v := v.(brokenId := e.id, reason := Altered);
        return;
      }
      assert FollowsAt(c, a, walk, v.checked);
      v := v.(checked := v.checked + 1, headId := e.id, headHash := e.hash);
      i := i + 1;
    }
  }

  /**
   * Verify. It answers OK exactly when the entries after the anchor chain to it, and
   * otherwise names the first entry that does not follow its predecessor; the head it
   * reports is the last entry that does.
   */
  method Verify(store: Store, now: Instant, days: int) returns (v: Verification)
    requires Ordered(store.rows)
    ensures v.ok <==> Chained(store.chain, store.anchor, Walk(store.View()))
    ensures v.ok ==> Reached(store.chain, store.anchor, Walk(store.View()), v) && v.checked == |Walk(store.View())| && v.reason == Intact
    ensures !v.ok ==> Stopped(store.chain, store.anchor, Walk(store.View()), v)
    ensures v.warning <==> AnchorTooNew(store.anchor, now, days)
  {
    ghost var walk := Walk(store.View());
    var a := store.anchor;
    v := Verification(false, 0, a.lastId, a.lastHash, 0, Intact, AnchorTooNew(a, now, days));
    var after := a.lastId as int;
    while true
      invariant Reached(store.chain, a, walk, v)
      invariant Select(store.rows, Any, 0, after) == walk[v.checked..]
      invariant !v.ok && v.reason == Intact && (v.warning <==> AnchorTooNew(a, now, days))
      decreases |walk| - v.checked
    {
      var list := store.List(Any, 0, after, true, WALK_BATCH);
      v := CheckPage(store.chain, a, walk, list, v);
      if v.reason != Intact { return; }
      if |list| < WALK_BATCH {
        v := v.(ok := true);
        return;
      }
      after := list[|list| - 1].id;
      ResumeWalk(store.chain, a, store.rows, v.checked);
    }
  }

  lemma ResumeWalk(c: Chain, a: Anchor, rows: seq<Event>, k: nat)
    requires Ordered(rows) && 0 < k <= |Walk(Log(a, rows))| && ChainedTo(c, a, Walk(Log(a, rows)), k)
    ensures Select(rows, Any, 0, Walk(Log(a, rows))[k - 1].id) == Walk(Log(a, rows))[k..]
  {
    var walk := Walk(Log(a, rows));
    ChainedIds(c, a, walk, k, k);
    SelectResume(rows, Any, 0, a.lastId, k, walk[k - 1].id);
  }

  // ---- What the chain proves ----

  /** The chain of the program, over any hash. */
  function CanonicalChain(h: Hash): Chain { Chain(h, Canonical, GENESIS_HASH) }

  /** Two inputs of the hash that would be a collision. */
  ghost predicate Collision(h: Hash, x: string, y: string) { x != y && h(x) == h(y) }

  /** Entry i of both logs hashes the same document and stores the same hash. */
  predicate SameAt(c: Chain, r1: seq<Event>, r2: seq<Event>, i: nat)
    requires i < |r1| && i < |r2|
  {
    Document(c, r1[i]) == Document(c, r2[i]) && r1[i].hash == r2[i].hash
  }

  /**
   * Two logs that chain from one anchor to the same hash hold the same documents and
   * hashes, or two different inputs with one hash.
   */
  lemma {:induction false} SameHeadSameDocuments(c: Chain, a: Anchor, r1: seq<Event>, r2: seq<Event>, n: nat) returns (x: string, y: string)
    requires forall s :: |c.h(s)| == 64
    requires n <= |r1| && n <= |r2| && ChainedTo(c, a, r1, n) && ChainedTo(c, a, r2, n)
    requires PrevHash(a, r1, n) == PrevHash(a, r2, n)
    ensures (forall i :: 0 <= i < n ==> SameAt(c, r1, r2, i)) || Collision(c.h, x, y)
  {
    x, y := "", "";
    if n > 0 {
      var e1, e2 := r1[n - 1], r2[n - 1];
      var p1, p2 := PrevHash(a, r1, n - 1), PrevHash(a, r2, n - 1);
      assert FollowsAt(c, a, r1, n - 1) && FollowsAt(c, a, r2, n - 1);
      if p1 + Document(c, e1) != p2 + Document(c, e2) {
        x, y := p1 + Document(c, e1), p2 + Document(c, e2);
      } else {
        PrevLength(c, a, r1, n, n - 1);
        PrevLength(c, a, r2, n, n - 1);
        SameParts(p1, Document(c, e1), p2, Document(c, e2));
        x, y := SameHeadSameDocuments(c, a, r1, r2, n - 1);
      }
    }
  }

  lemma SameParts(p1: string, d1: string, p2: string, d2: string)
    requires |p1| == |p2| && p1 + d1 == p2 + d2
    ensures p1 == p2 && d1 == d2
  {
    assert p1 == (p1 + d1)[..|p1|] && p2 == (p2 + d2)[..|p2|];
    assert d1 == (p1 + d1)[|p1|..] && d2 == (p2 + d2)[|p2|..];
  }

  lemma PrevLength(c: Chain, a: Anchor, rows: seq<Event>, n: nat, i: nat)
    requires forall s :: |c.h(s)| == 64
    requires n <= |rows| && ChainedTo(c, a, rows, n) && i <= n
    ensures |PrevHash(a, rows, i)| == if i == 0 then |a.lastHash| else 64
  {
    if i > 0 { assert FollowsAt(c, a, rows, i - 1); }
  }

  lemma SameCanonical(c: Chain, r1: seq<Event>, r2: seq<Event>)
    requires c.doc == Canonical && |r1| == |r2| && forall i :: 0 <= i < |r1| ==> SameAt(c, r1, r2, i)
    ensures r1 == r2
  {
    forall i | 0 <= i < |r1|
      ensures r1[i] == r2[i]
    {
      assert SameAt(c, r1, r2, i);
      CanonicalInjective(r1[i].(hash := ""), r2[i].(hash := ""));
      assert r1[i] == r1[i].(hash := "").(hash := r1[i].hash);
      assert r2[i] == r2[i].(hash := "").(hash := r2[i].hash);
    }
  }

  /**
   * Tamper evidence: two logs of the program that verify from one anchor to the same
   * head ID and hash are equal entry by entry, or they exhibit a collision of the hash.
   */
  lemma HeadPinsLog(h: Hash, a: Anchor, r1: seq<Event>, r2: seq<Event>) returns (x: string, y: string)
    requires forall s :: |h(s)| == 64
    requires Chained(CanonicalChain(h), a, r1) && Chained(CanonicalChain(h), a, r2)
    requires HeadId(Log(a, r1)) == HeadId(Log(a, r2)) && HeadHash(Log(a, r1)) == HeadHash(Log(a, r2))
    ensures r1 == r2 || Collision(h, x, y)
  {
    var c := CanonicalChain(h);
    ChainedIds(c, a, r1, |r1|, |r1|);
    ChainedIds(c, a, r2, |r2|, |r2|);
    x, y := SameHeadSameDocuments(c, a, r1, r2, |r1|);
    if !Collision(h, x, y) { SameCanonical(c, r1, r2); }
  }
}
