// Coalescing of repeated refusals into summary entries (internal/auditlog/coalesce.go).
module Coalesce {
  import opened Decimal
  import opened Calendar
  import opened Text
  import opened AuditEvent

  const COALESCE_WINDOW: int := 10 * SECOND
  const MAX_COALESCE_KEYS: nat := 4096
  const MAX_SUMMARY_NAMES: nat := 10
  const MAX_SUMMARY_NAME: nat := 64
  const INT_MAX: nat := 0x7FFF_FFFF_FFFF_FFFF

  const TARGET_FROM := "coalesced_from"
  const TARGET_UNTIL := "coalesced_until"
  const TARGET_NAME := "name_"
  const TARGET_MORE := "names_more"
  const TARGET_REASON := "reason"

  /** The refusals of one caller that are counted instead of stored. */
  datatype Window = Window(first: Event, since: Instant, last: Instant, suppressed: nat, names: seq<string>, moreNames: nat)

  predicate IsRefusal(e: Event) { e.outcome == OUTCOME_DENIED || e.outcome == OUTCOME_RATE_LIMITED }

  function Reason(e: Event): string { if TARGET_REASON in e.targets then e.targets[TARGET_REASON] else "" }

  /** strings.Join with a NUL between the parts. */
  function Join(parts: seq<string>): string {
    if parts == [] then "" else if |parts| == 1 then parts[0] else parts[0] + ("\0" + Join(parts[1..]))
  }

  function KeyParts(e: Event): seq<string> {
    [e.actorKind, e.actorUserId, if e.actorKind == ACTOR_ANONYMOUS then "" else e.actorName, e.actorKeyId, e.clientIp,
     e.action, e.outcome, Itoa(e.status), Reason(e)]
  }

  function RefusalKey(e: Event): string { Join(KeyParts(e)) }

  // ---- The key identifies the caller and the refusal ----

  ghost predicate NoSeparator(s: string) { forall i :: 0 <= i < |s| ==> s[i] != '\0' }

  lemma SplitFirst(a: string, x: string, b: string, y: string)
    requires NoSeparator(a) && NoSeparator(b)
    requires a + ("\0" + x) == b + ("\0" + y)
    ensures a == b && x == y
  {
    var s, t := a + ("\0" + x), b + ("\0" + y);
    assert s[|a|] == '\0' && t[|b|] == '\0';
    assert forall i :: 0 <= i < |a| ==> s[i] == a[i];
    assert forall i :: 0 <= i < |b| ==> t[i] == b[i];
    assert |a| == |b|;
    assert a == s[..|a|] && b == t[..|b|];
    assert x == s[|a| + 1..] && y == t[|b| + 1..];
  }

  lemma {:induction false} JoinInjective(p: seq<string>, q: seq<string>)
    requires |p| == |q| && Join(p) == Join(q)
    requires forall i :: 0 <= i < |p| ==> NoSeparator(p[i]) && NoSeparator(q[i])
    ensures p == q
  {
    if |p| > 1 {
      SplitFirst(p[0], Join(p[1..]), q[0], Join(q[1..]));
      JoinInjective(p[1..], q[1..]);
      assert p == [p[0]] + p[1..] && q == [q[0]] + q[1..];
    }
  }

  lemma PartsHaveNoSeparator(e: Event)
    requires Stored(e)
    ensures forall i :: 0 <= i < |KeyParts(e)| ==> NoSeparator(KeyParts(e)[i])
  {
    ItoaDigits(e.status);
  }

  lemma ItoaDigits(n: int)
    ensures forall i :: 0 <= i < |Itoa(n)| ==> IsDigit(Itoa(n)[i]) || Itoa(n)[i] == '-'
  {
  }

  /** Stored events share a window key exactly when caller, action, outcome, status and reason agree. */
  lemma RefusalKeyInjective(a: Event, b: Event)
    requires Stored(a) && Stored(b)
    ensures RefusalKey(a) == RefusalKey(b) <==>
            && a.actorKind == b.actorKind && a.actorUserId == b.actorUserId
            && (a.actorKind == ACTOR_ANONYMOUS || a.actorName == b.actorName)
            && a.actorKeyId == b.actorKeyId && a.clientIp == b.clientIp && a.action == b.action
            && a.outcome == b.outcome && a.status == b.status && Reason(a) == Reason(b)
  {
    if RefusalKey(a) == RefusalKey(b) {
      PartsHaveNoSeparator(a);
      PartsHaveNoSeparator(b);
      var p, q := KeyParts(a), KeyParts(b);
      JoinInjective(p, q);
      assert p[0] == q[0] && p[1] == q[1] && p[2] == q[2] && p[3] == q[3] && p[4] == q[4];
      assert p[5] == q[5] && p[6] == q[6] && p[7] == q[7] && p[8] == q[8];
      SignedRoundTrip(a.status, 1);
      SignedRoundTrip(b.status, 1);
    }
  }

  // ---- Counting into a window ----

  /** The count and the latest time of a refusal. */
  function AddCount(w: Window, e: Event): Window
    requires e.count >= 0
  {
    w.(suppressed := w.suppressed + e.count, last := if e.time > w.last then e.time else w.last)
  }

  /** The attempted name of an anonymous refusal. */
  function AddName(w: Window, name: string): Window {
    if name in w.names then w
    else if |w.names| < MAX_SUMMARY_NAMES then w.(names := w.names + [name])
    else w.(moreNames := w.moreNames + 1)
  }

  /** window.add. */
  function Add(w: Window, e: Event): Window
    requires e.count >= 0
  {
    if e.actorKind != ACTOR_ANONYMOUS || e.actorName == "" then AddCount(w, e)
    else AddName(AddCount(w, e), Clean(e.actorName, MAX_SUMMARY_NAME))
  }

  /** A window that e opens. */
  function Opened(e: Event): Window { Window(e, e.time, e.time, 0, [], 0) }

  /** The numbered names, in order. */
  function NameTargets(names: seq<string>): (t: map<string, string>)
    ensures |t| <= |names|
  {
    if names == [] then map[]
    else NameTargets(names[..|names| - 1])[TARGET_NAME + Itoa(|names|) := names[|names| - 1]]
  }

  /** The targets of a summary; more is "" when every name was kept. */
  function BuildTargets(from: string, until: string, reason: string, anonymous: bool, more: string, names: seq<string>): (t: map<string, string>)
    ensures |t| <= 4 + |names|
  {
    var range := map[TARGET_FROM := from][TARGET_UNTIL := until];
    var withReason := if reason == "" then range else range[TARGET_REASON := reason];
    if !anonymous then withReason
    else Overlay(if more == "" then withReason else withReason[TARGET_MORE := more], NameTargets(names))
  }

  function SummaryTargets(w: Window): map<string, string> {
    BuildTargets(FormatTime(w.since), FormatTime(w.last), Reason(w.first), w.first.actorKind == ACTOR_ANONYMOUS,
                 if w.moreNames > 0 then Itoa(w.moreNames) else "", w.names)
  }

  function Overlay(m: map<string, string>, n: map<string, string>): (r: map<string, string>)
    ensures r == m + n && |r| <= |m| + |n|
  {
    var r := m + n;
    assert r.Keys == m.Keys + n.Keys;
    assert |m.Keys + n.Keys| <= |m.Keys| + |n.Keys| by { UnionSize(m.Keys, n.Keys); }
    r
  }

  lemma UnionSize(a: set<string>, b: set<string>)
    ensures |a + b| <= |a| + |b|
  {
    assert a + b == a + (b - a);
    assert |a + (b - a)| == |a| + |b - a|;
    assert b == (b - a) + (b * a);
    assert |b| == |b - a| + |b * a|;
  }

  /** The summary before it is normalised. */
  function SummaryDraft(w: Window): Event {
    w.first.(
      time := w.last,
      count := w.suppressed,
      targets := SummaryTargets(w),
      actorName := if w.first.actorKind == ACTOR_ANONYMOUS then "" else w.first.actorName)
  }

  /** window.summary, for a window that suppressed something. */
  function Summary(w: Window): Event { Normalize(SummaryDraft(w)) }

  // ---- What a summary keeps ----

  /** More seconds than a time.Time counts. */
  const TIME_LIMIT: int := 10_000_000_000_000_000_000 * SECOND

  /** A time a time.Time can hold. */
  predicate Representable(t: Instant) { -TIME_LIMIT < t < TIME_LIMIT }

  /** The year of such a time has at most twelve digits. */
  lemma YearBounded(t: Instant)
    requires Representable(t)
    ensures -1_000_000_000_000 < CivilOf(t / DAY).year < 1_000_000_000_000
  {
    var n := t / DAY;
    var y := YearOf(n);
    assert -120_000_000_000_000 < n < 120_000_000_000_000;
    assert y >= 0 ==> DaysBeforeYear(y) >= 365 * y - 1;
    assert y < 0 ==> DaysBeforeYear(y + 1) <= 365 * (y + 1) + 3;
  }

  /** Windows as coalescing builds them. */
  ghost predicate Sound(w: Window) {
    && Representable(w.since) && Representable(w.last)
    && |w.names| <= MAX_SUMMARY_NAMES && w.moreNames <= INT_MAX
    && NamesFit(w.names)
  }

  ghost predicate NamesFit(names: seq<string>) { forall i :: 0 <= i < |names| ==> Fits(names[i], MAX_SUMMARY_NAME) }

  lemma OpenedSound(e: Event)
    requires Representable(e.time)
    ensures Sound(Opened(e))
  {
  }

  lemma AddCountSound(w: Window, e: Event)
    requires Sound(w) && e.count >= 0 && Representable(e.time)
    ensures Sound(AddCount(w, e))
  {
  }

  lemma AddNameSound(w: Window, name: string)
    requires Sound(w) && Fits(name, MAX_SUMMARY_NAME) && w.moreNames < INT_MAX
    ensures Sound(AddName(w, name))
  {
    if name !in w.names && |w.names| < MAX_SUMMARY_NAMES { NamesFitExtended(w.names, name); }
  }

  lemma AddSound(w: Window, e: Event)
    requires Sound(w) && e.count >= 0 && Representable(e.time) && w.moreNames < INT_MAX
    ensures Sound(Add(w, e))
  {
    AddCountSound(w, e);
    AddNameSound(AddCount(w, e), Clean(e.actorName, MAX_SUMMARY_NAME));
  }

  lemma NamesFitExtended(names: seq<string>, name: string)
    requires Fits(name, MAX_SUMMARY_NAME) && NamesFit(names)
    ensures NamesFit(names + [name])
  {
  }

  // ---- What a window stands for ----

  /** The window that first opened and events were counted into. */
  function WindowOf(first: Event, events: seq<Event>): Window
    requires forall i :: 0 <= i < |events| ==> events[i].count >= 0
  {
    if events == [] then Opened(first) else Add(WindowOf(first, events[..|events| - 1]), events[|events| - 1])
  }

  function TotalCount(events: seq<Event>): int {
    if events == [] then 0 else TotalCount(events[..|events| - 1]) + events[|events| - 1].count
  }

  /** The attempted name of an anonymous refusal is not among names. */
  predicate Unlisted(e: Event, names: seq<string>) {
    e.actorKind == ACTOR_ANONYMOUS && e.actorName != "" && Clean(e.actorName, MAX_SUMMARY_NAME) !in names
  }

  function UnlistedCount(events: seq<Event>, names: seq<string>): nat {
    if events == [] then 0
    else UnlistedCount(events[..|events| - 1], names) + if Unlisted(events[|events| - 1], names) then 1 else 0
  }

  lemma {:induction false} UnlistedBelow(events: seq<Event>, names: seq<string>, name: string)
    requires UnlistedCount(events, names) == 0
    ensures UnlistedCount(events, names + [name]) == 0
  {
    if events != [] { UnlistedBelow(events[..|events| - 1], names, name); }
  }

  lemma {:induction false} MoreNamesBounded(first: Event, events: seq<Event>)
    requires forall i :: 0 <= i < |events| ==> events[i].count >= 0
    ensures WindowOf(first, events).moreNames <= |events|
  {
    if events != [] { MoreNamesBounded(first, events[..|events| - 1]); }
  }

  lemma {:induction false} WindowSound(first: Event, events: seq<Event>)
    requires Representable(first.time) && |events| <= INT_MAX
    requires forall i :: 0 <= i < |events| ==> events[i].count >= 0 && Representable(events[i].time)
    ensures Sound(WindowOf(first, events))
  {
    if events == [] {
      OpenedSound(first);
    } else {
      var init := events[..|events| - 1];
      WindowSound(first, init);
      MoreNamesBounded(first, init);
      AddSound(WindowOf(first, init), events[|events| - 1]);
    }
  }

  /** One more name: the names not kept are still exactly the unlisted ones. */
  lemma AddNameCounts(w: Window, init: seq<Event>, e: Event)
    requires w.moreNames == UnlistedCount(init, w.names) && (|w.names| < MAX_SUMMARY_NAMES ==> w.moreNames == 0)
    requires e.actorKind == ACTOR_ANONYMOUS && e.actorName != ""
    ensures var w' := AddName(w, Clean(e.actorName, MAX_SUMMARY_NAME));
            && w'.moreNames == UnlistedCount(init, w'.names) + (if Unlisted(e, w'.names) then 1 else 0)
            && (|w'.names| < MAX_SUMMARY_NAMES ==> w'.moreNames == 0)
  {
    var name := Clean(e.actorName, MAX_SUMMARY_NAME);
    if name !in w.names && |w.names| < MAX_SUMMARY_NAMES {
      UnlistedBelow(init, w.names, name);
      assert (w.names + [name])[|w.names|] == name;
    }
  }

  /**
   * A window stands for exactly the refusals counted into it: their total count, and
   * every attempted name, either kept or counted as not kept.
   */
  lemma {:induction false} WindowStandsFor(first: Event, events: seq<Event>)
    requires forall i :: 0 <= i < |events| ==> events[i].count >= 0
    ensures WindowOf(first, events).first == first
    ensures WindowOf(first, events).suppressed == TotalCount(events)
    ensures WindowOf(first, events).moreNames == UnlistedCount(events, WindowOf(first, events).names)
    ensures |WindowOf(first, events).names| < MAX_SUMMARY_NAMES ==> WindowOf(first, events).moreNames == 0
  {
    if events != [] {
      var init, e := events[..|events| - 1], events[|events| - 1];
      WindowStandsFor(first, init);
      if e.actorKind == ACTOR_ANONYMOUS && e.actorName != "" {
        AddNameCounts(AddCount(WindowOf(first, init), e), init, e);
      }
    }
  }

  ghost predicate Plain(s: string) { forall i :: 0 <= i < |s| ==> ' ' <= s[i] <= '~' }

  lemma {:induction false} PlainFits(s: string, n: nat)
    requires Plain(s) && |s| <= n
    ensures Fits(s, n)
  {
    if s != [] { PlainFits(s[1..], n - 1); }
  }

  lemma {:induction false} NaturalLength(n: nat, k: nat)
    requires 0 < k && n < Pow10(k)
    ensures |Natural(n)| <= k
  {
    if n >= 10 {
      assert k > 1;
      NaturalLength(n / 10, k - 1);
    }
  }

  lemma NumberFits(n: nat, limit: nat)
    requires n <= INT_MAX && limit >= 19
    ensures Fits(Itoa(n), limit)
  {
    assert Pow10(19) == 10_000_000_000_000_000_000 by {
      assert Pow10(5) == 100_000;
      assert Pow10(10) == 10_000_000_000;
      assert Pow10(15) == 1_000_000_000_000_000;
    }
    assert Itoa(n) == Natural(n) || n < 10;
    if n >= 10 { NaturalLength(n, 19); }
    PlainFits(Itoa(n), limit);
  }

  lemma TimeFits(t: Instant)
    requires Representable(t)
    ensures Fits(FormatTime(t), MAX_TARGET_VALUE)
  {
    YearBounded(t);
    var c := CivilOf(t / DAY);
    var y := if c.year < 0 then -c.year else c.year;
    assert Pow10(12) == 1_000_000_000_000 by { assert Pow10(4) == 10_000; assert Pow10(8) == 100_000_000; }
    NaturalLength(y, 12);
    assert |Signed(c.year, 4)| <= 13;
    ClockPlain(t % DAY);
    assert Pow10(2) == 100;
    var tail := "-" + Fixed(c.month, 2) + "-" + Fixed(c.day, 2) + "T" + ClockText(t % DAY) + "Z";
    assert Plain(tail);
    assert Plain(Signed(c.year, 4));
    PlainFits(FormatTime(t), MAX_TARGET_VALUE);
  }

  lemma ClockPlain(ns: nat)
    requires ns < DAY
    ensures Plain(ClockText(ns))
  {
  }

  ghost predicate TargetsFit(t: map<string, string>) {
    forall k :: k in t ==> k != "" && Fits(k, MAX_TARGET_KEY) && Fits(t[k], MAX_TARGET_VALUE)
  }

  lemma {:induction false} NameTargetsFit(names: seq<string>)
    requires |names| <= MAX_SUMMARY_NAMES && NamesFit(names)
    ensures TargetsFit(NameTargets(names))
  {
    if names != [] {
      NameTargetsFit(names[..|names| - 1]);
      NameKeyFits(|names|);
    }
  }

  lemma NameKeyFits(i: nat)
    requires i <= INT_MAX
    ensures Fits(TARGET_NAME + Itoa(i), MAX_TARGET_KEY) && TARGET_NAME + Itoa(i) != ""
  {
    NumberFits(i, 19);
    ShortFits(Itoa(i));
    PlainFits(TARGET_NAME + Itoa(i), MAX_TARGET_KEY);
  }

  lemma PutFits(t: map<string, string>, k: string, v: string)
    requires TargetsFit(t) && Plain(k) && 0 < |k| <= MAX_TARGET_KEY && Fits(v, MAX_TARGET_VALUE)
    ensures TargetsFit(t[k := v])
  {
    PlainFits(k, MAX_TARGET_KEY);
  }

  lemma OverlayFits(m: map<string, string>, n: map<string, string>)
    requires TargetsFit(m) && TargetsFit(n)
    ensures TargetsFit(Overlay(m, n))
  {
  }

  lemma RangeFits(from: string, until: string)
    requires Fits(from, MAX_TARGET_VALUE) && Fits(until, MAX_TARGET_VALUE)
    ensures TargetsFit(map[TARGET_FROM := from][TARGET_UNTIL := until])
  {
    assert map[TARGET_FROM := from] == map[][TARGET_FROM := from];
    PutFits(map[], TARGET_FROM, from);
    PutFits(map[TARGET_FROM := from], TARGET_UNTIL, until);
  }

  lemma BuildTargetsFit(from: string, until: string, reason: string, anonymous: bool, more: string, names: seq<string>)
    requires Fits(from, MAX_TARGET_VALUE) && Fits(until, MAX_TARGET_VALUE) && Fits(reason, MAX_TARGET_VALUE) && Fits(more, MAX_TARGET_VALUE)
    requires TargetsFit(NameTargets(names))
    ensures TargetsFit(BuildTargets(from, until, reason, anonymous, more, names))
  {
    RangeFits(from, until);
    var range := map[TARGET_FROM := from][TARGET_UNTIL := until];
    PutFits(range, TARGET_REASON, reason);
    var withReason := if reason == "" then range else range[TARGET_REASON := reason];
    PutFits(withReason, TARGET_MORE, more);
    OverlayFits(if more == "" then withReason else withReason[TARGET_MORE := more], NameTargets(names));
  }

  lemma SummaryTargetsFit(w: Window)
    requires Sound(w) && Fits(Reason(w.first), MAX_TARGET_VALUE)
    ensures TargetsNormal(SummaryTargets(w)) && |SummaryTargets(w)| <= 14
  {
    var from, until, more := FormatTime(w.since), FormatTime(w.last), if w.moreNames > 0 then Itoa(w.moreNames) else "";
    TimeFits(w.since);
    TimeFits(w.last);
    NumberFits(w.moreNames, MAX_TARGET_VALUE);
    NameTargetsFit(w.names);
    BuildTargetsFit(from, until, Reason(w.first), w.first.actorKind == ACTOR_ANONYMOUS, more, w.names);
  }

  lemma NameKeysDiffer(i: nat, j: nat)
    requires i != j
    ensures TARGET_NAME + Itoa(i) != TARGET_NAME + Itoa(j)
  {
    SignedRoundTrip(i, 1);
    SignedRoundTrip(j, 1);
    assert (TARGET_NAME + Itoa(i))[5..] == Itoa(i);
    assert (TARGET_NAME + Itoa(j))[5..] == Itoa(j);
  }

  lemma {:induction false} NameTargetsHold(names: seq<string>, i: nat)
    requires i < |names|
    ensures TARGET_NAME + Itoa(i + 1) in NameTargets(names) && NameTargets(names)[TARGET_NAME + Itoa(i + 1)] == names[i]
  {
    if i < |names| - 1 {
      NameTargetsHold(names[..|names| - 1], i);
      NameKeysDiffer(i + 1, |names|);
    }
  }

  lemma {:induction false} NameTargetsOnly(names: seq<string>, k: string)
    requires k in NameTargets(names)
    ensures |k| >= 5 && k[..5] == TARGET_NAME
  {
    if names != [] && k != TARGET_NAME + Itoa(|names|) { NameTargetsOnly(names[..|names| - 1], k); }
  }

  lemma BuildTargetsHold(from: string, until: string, reason: string, more: string, names: seq<string>, i: nat)
    requires i < |names|
    ensures var t := BuildTargets(from, until, reason, true, more, names);
            TARGET_NAME + Itoa(i + 1) in t && t[TARGET_NAME + Itoa(i + 1)] == names[i]
  {
    NameTargetsHold(names, i);
  }

  lemma BuildTargetsReason(from: string, until: string, reason: string, anonymous: bool, more: string, names: seq<string>)
    ensures var t := BuildTargets(from, until, reason, anonymous, more, names);
            reason == if TARGET_REASON in t then t[TARGET_REASON] else ""
  {
    assert TARGET_REASON[0] == 'r' && TARGET_NAME[0] == 'n';
    if TARGET_REASON in NameTargets(names) { NameTargetsOnly(names, TARGET_REASON); }
  }

  lemma DraftStored(w: Window)
    requires Sound(w) && Stored(w.first) && IsRefusal(w.first) && w.suppressed > 0
    ensures Stored(SummaryDraft(w)) && SummaryDraft(w).outcome != ""
  {
    SummaryTargetsFit(w);
  }

  /** The summary of a window: normalising it loses nothing, no target to the cap either. */
  lemma SummaryKeepsEverything(w: Window)
    requires Sound(w) && Stored(w.first) && IsRefusal(w.first) && w.suppressed > 0
    ensures Summary(w) == SummaryDraft(w)
    ensures Stored(Summary(w)) && Summary(w).count == w.suppressed && |Summary(w).targets| <= 14
  {
    DraftStored(w);
    SummaryTargetsFit(w);
    NormalizeFixpoint(SummaryDraft(w));
  }

  /** The summary of anonymous refusals numbers every name the window kept. */
  lemma SummaryNames(w: Window, i: nat)
    requires Sound(w) && Stored(w.first) && IsRefusal(w.first) && w.suppressed > 0 && w.first.actorKind == ACTOR_ANONYMOUS && i < |w.names|
    ensures TARGET_NAME + Itoa(i + 1) in Summary(w).targets && Summary(w).targets[TARGET_NAME + Itoa(i + 1)] == w.names[i]
  {
    SummaryKeepsEverything(w);
    BuildTargetsHold(FormatTime(w.since), FormatTime(w.last), Reason(w.first), if w.moreNames > 0 then Itoa(w.moreNames) else "", w.names, i);
  }

  /** A summary belongs to the caller and refusal it stands for. */
  lemma SummaryKeepsKey(w: Window)
    requires Sound(w) && Stored(w.first) && IsRefusal(w.first) && w.suppressed > 0
    ensures RefusalKey(Summary(w)) == RefusalKey(w.first)
  {
    SummaryKeepsEverything(w);
    var s := SummaryDraft(w);
    BuildTargetsReason(FormatTime(w.since), FormatTime(w.last), Reason(w.first), w.first.actorKind == ACTOR_ANONYMOUS,
                       if w.moreNames > 0 then Itoa(w.moreNames) else "", w.names);
    assert Reason(s) == Reason(w.first);
    assert KeyParts(s) == KeyParts(w.first);
  }
}
