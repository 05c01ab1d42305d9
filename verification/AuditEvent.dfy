// The entries of the audit log and their normalisation (internal/auditlog/auditlog.go).
module AuditEvent {
  import opened Calendar
  import opened Ordering
  import opened Text

  const ACTOR_USER := "user"
  const ACTOR_API_KEY := "api_key"
  const ACTOR_SYSTEM := "system"
  const ACTOR_ANONYMOUS := "anonymous"

  const OUTCOME_OK := "ok"
  const OUTCOME_ERROR := "error"
  const OUTCOME_DENIED := "denied"
  const OUTCOME_RATE_LIMITED := "rate_limited"

  const MAX_NAME: nat := 128
  const MAX_ACTION: nat := 256
  const MAX_IP: nat := 64
  const MAX_USER_AGENT: nat := 256
  const MAX_TARGETS: nat := 16
  const MAX_TARGET_KEY: nat := 64
  const MAX_TARGET_VALUE: nat := 256

  datatype Event = Event(
    id: int,
    time: Instant,
    actorKind: string,
    actorUserId: string,
    actorName: string,
    actorKeyId: string,
    actorKeyName: string,
    action: string,
    targets: map<string, string>,
    status: int,
    outcome: string,
    clientIp: string,
    userAgent: string,
    count: int,
    hash: string)

  /** Characters that stay in a stored string. */
  predicate Storable(c: char) {
    ' ' <= c && !('\U{7F}' <= c <= '\U{9F}') && c != '\U{2028}' && c != '\U{2029}'
  }

  predicate AllStorable(s: string) { forall i :: 0 <= i < |s| ==> Storable(s[i]) }

  function Sift(s: string): (r: string)
    ensures AllStorable(r)
  {
    if s == [] then [] else (if Storable(s[0]) then [s[0]] else []) + Sift(s[1..])
  }

  /** The longest prefix of whole characters within n bytes. */
  function Cut(s: string, n: nat): (r: string)
    ensures r <= s && Bytes(r) <= n
    ensures r != s ==> Bytes(r) + CharBytes(s[|r|]) > n
  {
    if s == [] || CharBytes(s[0]) > n then []
    else
      var t := Cut(s[1..], n - CharBytes(s[0]));
      assert ([s[0]] + t)[1..] == t;
      assert s == [s[0]] + s[1..];
      [s[0]] + t
  }

  /** clean: storable characters only, cut at n bytes on a character boundary. */
  function Clean(s: string, n: nat): (r: string)
    ensures AllStorable(r) && Bytes(r) <= n
  {
    Cut(Sift(s), n)
  }

  lemma {:induction false} SiftKeeps(s: string)
    requires AllStorable(s)
    ensures Sift(s) == s
  {
    if s != [] {
      SiftKeeps(s[1..]);
      assert s == [s[0]] + s[1..];
    }
  }

  lemma {:induction false} CutKeeps(s: string, n: nat)
    requires Bytes(s) <= n
    ensures Cut(s, n) == s
  {
    if s != [] {
      CutKeeps(s[1..], n - CharBytes(s[0]));
      assert s == [s[0]] + s[1..];
    }
  }

  /** A string is left alone exactly when it is storable and short enough. */
  lemma CleanFixpoint(s: string, n: nat)
    ensures Clean(s, n) == s <==> AllStorable(s) && Bytes(s) <= n
  {
    if AllStorable(s) && Bytes(s) <= n {
      SiftKeeps(s);
      CutKeeps(s, n);
    }
  }

  function OutcomeFor(status: int): string {
    if status == 401 || status == 403 then OUTCOME_DENIED
    else if status == 429 then OUTCOME_RATE_LIMITED
    else if status >= 400 then OUTCOME_ERROR
    else OUTCOME_OK
  }

  predicate KnownActor(kind: string) {
    kind in {ACTOR_USER, ACTOR_API_KEY, ACTOR_SYSTEM, ACTOR_ANONYMOUS}
  }

  /** One target of the loop over the sorted keys. */
  function AddTarget(out: map<string, string>, key: string, value: string): map<string, string> {
    var k := Clean(key, MAX_TARGET_KEY);
    if k == "" || |out| >= MAX_TARGETS then out else out[k := Clean(value, MAX_TARGET_VALUE)]
  }

  function AddTargets(out: map<string, string>, keys: seq<string>, targets: map<string, string>): map<string, string>
    requires forall k :: k in keys ==> k in targets
  {
    if keys == [] then out
    else AddTarget(AddTargets(out, keys[..|keys| - 1], targets), keys[|keys| - 1], targets[keys[|keys| - 1]])
  }

  function CleanTargets(targets: map<string, string>): map<string, string> {
    AddTargets(map[], SortedKeys(targets.Keys), targets)
  }

  /** The target loop of normalize. */
  method NormalizeTargets(targets: map<string, string>) returns (out: map<string, string>)
    ensures out == CleanTargets(targets)
  {
    var keys := SortedKeys(targets.Keys);
    out := map[];
    var i := 0;
    while i < |keys|
      invariant 0 <= i <= |keys|
      invariant out == AddTargets(map[], keys[..i], targets)
    {
      AddTargetsStep(map[], keys, targets, i);
      var k := Clean(keys[i], MAX_TARGET_KEY);
      if !(k == "" || |out| >= MAX_TARGETS) {
        out := out[k := Clean(targets[keys[i]], MAX_TARGET_VALUE)];
      }
      i := i + 1;
    }
    assert keys[..i] == keys;
  }

  lemma AddTargetsStep(out: map<string, string>, keys: seq<string>, targets: map<string, string>, i: nat)
    requires i < |keys| && forall k :: k in keys ==> k in targets
    ensures AddTargets(out, keys[..i + 1], targets) == AddTarget(AddTargets(out, keys[..i], targets), keys[i], targets[keys[i]])
  {
    assert keys[..i + 1][..i] == keys[..i];
  }

  /** normalize. */
  function Normalize(e: Event): Event {
    var kind := Clean(e.actorKind, MAX_NAME);
    e.(
      actorKind := if KnownActor(kind) then kind else ACTOR_ANONYMOUS,
      actorUserId := Clean(e.actorUserId, MAX_NAME),
      actorName := Clean(e.actorName, MAX_NAME),
      actorKeyId := Clean(e.actorKeyId, MAX_NAME),
      actorKeyName := Clean(e.actorKeyName, MAX_NAME),
      action := Clean(e.action, MAX_ACTION),
      clientIp := Clean(e.clientIp, MAX_IP),
      userAgent := Clean(e.userAgent, MAX_USER_AGENT),
      outcome := Clean(if e.outcome == "" then OutcomeFor(e.status) else e.outcome, MAX_NAME),
      targets := CleanTargets(e.targets),
      count := if e.count < 1 then 1 else e.count,
      id := 0,
      hash := "")
  }

  predicate Fits(s: string, n: nat) { AllStorable(s) && Bytes(s) <= n }

  predicate TargetsNormal(t: map<string, string>) {
    && |t| <= MAX_TARGETS
    && forall k :: k in t ==> k != "" && Fits(k, MAX_TARGET_KEY) && Fits(t[k], MAX_TARGET_VALUE)
  }

  /** What every stored entry looks like before it is chained. */
  predicate Stored(e: Event) {
    && e.id == 0 && e.hash == "" && e.count >= 1
    && KnownActor(e.actorKind)
    && Fits(e.actorUserId, MAX_NAME) && Fits(e.actorName, MAX_NAME)
    && Fits(e.actorKeyId, MAX_NAME) && Fits(e.actorKeyName, MAX_NAME)
    && Fits(e.action, MAX_ACTION) && Fits(e.clientIp, MAX_IP) && Fits(e.userAgent, MAX_USER_AGENT)
    && Fits(e.outcome, MAX_NAME)
    && TargetsNormal(e.targets)
  }

  lemma {:induction false} AddTargetsNormal(out: map<string, string>, keys: seq<string>, targets: map<string, string>)
    requires TargetsNormal(out) && forall k :: k in keys ==> k in targets
    ensures TargetsNormal(AddTargets(out, keys, targets))
  {
    if keys != [] {
      AddTargetsNormal(out, keys[..|keys| - 1], targets);
    }
  }

  /** Every normalised event is storable. */
  lemma NormalizeStores(e: Event)
    ensures Stored(Normalize(e))
  {
    AddTargetsNormal(map[], SortedKeys(e.targets.Keys), e.targets);
  }

  /** m restricted to keys. */
  ghost function Restrict(m: map<string, string>, keys: seq<string>): map<string, string> {
    map k | k in m && k in keys :: m[k]
  }

  lemma CopyStep(targets: map<string, string>, init: seq<string>, last: string)
    requires TargetsNormal(targets) && last in targets && last !in init
    requires |Restrict(targets, init)| == |init| < |targets|
    ensures AddTarget(Restrict(targets, init), last, targets[last]) == Restrict(targets, init + [last])
    ensures |Restrict(targets, init + [last])| == |init| + 1
  {
    CleanFixpoint(last, MAX_TARGET_KEY);
    CleanFixpoint(targets[last], MAX_TARGET_VALUE);
    var done := Restrict(targets, init);
    assert done[last := targets[last]] == Restrict(targets, init + [last]);
    assert last !in done;
  }

  /** After some sorted keys the loop has copied exactly their targets. */
  lemma {:induction false} AddTargetsCopies(keys: seq<string>, targets: map<string, string>)
    requires TargetsNormal(targets) && Increasing(keys) && |keys| <= |targets|
    requires forall k :: k in keys ==> k in targets
    ensures AddTargets(map[], keys, targets) == Restrict(targets, keys)
    ensures |Restrict(targets, keys)| == |keys|
  {
    if keys == [] {
      assert Restrict(targets, keys) == map[];
    } else {
      var init, last := keys[..|keys| - 1], keys[|keys| - 1];
      IncreasingPrefix(keys);
      AddTargetsCopies(init, targets);
      assert keys == init + [last];
      CopyStep(targets, init, last);
    }
  }

  lemma CleanTargetsKeeps(t: map<string, string>)
    requires TargetsNormal(t)
    ensures CleanTargets(t) == t
  {
    var keys := SortedKeys(t.Keys);
    SortedKeysIncreasing(t.Keys);
    assert |t.Keys| == |t|;
    AddTargetsCopies(keys, t);
    assert Restrict(t, keys) == t;
  }

  lemma KnownActorsFit(kind: string)
    requires KnownActor(kind)
    ensures Clean(kind, MAX_NAME) == kind
  {
    LiteralFits(kind);
  }

  lemma LiteralFits(s: string)
    requires AllStorable(s) && |s| <= 32
    ensures Clean(s, MAX_NAME) == s
  {
    ShortFits(s);
    CleanFixpoint(s, MAX_NAME);
  }

  lemma {:induction false} ShortFits(s: string)
    ensures |s| <= Bytes(s) <= 4 * |s|
  {
    if s != [] { ShortFits(s[1..]); }
  }

  /** An event is left alone exactly when it is storable and has an outcome. */
  lemma NormalizeFixpoint(e: Event)
    ensures Normalize(e) == e <==> Stored(e) && e.outcome != ""
  {
    if Stored(e) && e.outcome != "" {
      KnownActorsFit(e.actorKind);
      CleanFixpoint(e.actorUserId, MAX_NAME);
      CleanFixpoint(e.actorName, MAX_NAME);
      CleanFixpoint(e.actorKeyId, MAX_NAME);
      CleanFixpoint(e.actorKeyName, MAX_NAME);
      CleanFixpoint(e.action, MAX_ACTION);
      CleanFixpoint(e.clientIp, MAX_IP);
      CleanFixpoint(e.userAgent, MAX_USER_AGENT);
      CleanFixpoint(e.outcome, MAX_NAME);
      CleanTargetsKeeps(e.targets);
    } else if Normalize(e) == e {
      NormalizeStores(e);
      OutcomesFit(e.status);
    }
  }

  lemma OutcomesShort(status: int)
    ensures OutcomeFor(status) != "" && |OutcomeFor(status)| <= 32 && AllStorable(OutcomeFor(status))
  {
  }

  lemma OutcomesFit(status: int)
    ensures OutcomeFor(status) != "" && Clean(OutcomeFor(status), MAX_NAME) == OutcomeFor(status)
  {
    OutcomesShort(status);
    LiteralFits(OutcomeFor(status));
  }

  /**
   * Normalising twice is normalising once, except for an outcome that is not empty
   * but holds nothing storable: it becomes empty, and a second pass fills it in.
   */
  lemma NormalizeIdempotent(e: Event)
    ensures Normalize(Normalize(e)) == Normalize(e) <==> e.outcome == "" || Clean(e.outcome, MAX_NAME) != ""
  {
    NormalizeStores(e);
    NormalizeFixpoint(Normalize(e));
    OutcomesFit(e.status);
  }

  /** An outcome of a line feed alone: the second pass replaces the empty outcome the first one left. */
  lemma NormalizeTwiceExample(e: Event)
    requires e.outcome == "\n"
    ensures Normalize(e).outcome == "" && Normalize(Normalize(e)) != Normalize(e)
  {
    assert Clean("\n", MAX_NAME) == "" by { assert "\n"[1..] == ""; }
    NormalizeIdempotent(e);
  }
}
