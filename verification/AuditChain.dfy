// The canonical JSON of an audit log entry and the hash chain over it
// (internal/auditlog/chain.go). The hash is a parameter: lowercase hex of SHA-256 in
// the program, any function into strings of one length here.
module AuditChain {
  import opened Decimal
  import opened Calendar
  import opened Ordering
  import opened Json
  import opened AuditEvent

  type Hash = string -> string

  function PrintText(key: string, s: string, rest: string): string { key + Quoted(s, rest) }

  function PrintNumber(key: string, n: int, rest: string): string { key + (Itoa(n) + rest) }

  /** The members of the targets object, its closing brace and rest. */
  function PrintMembers(first: bool, keys: seq<string>, t: map<string, string>, rest: string): string
    requires forall k :: k in keys ==> k in t
  {
    if keys == [] then "}" + rest
    else
      (if first then "" else ",") +
      Quoted(keys[0], ":" + Quoted(t[keys[0]], PrintMembers(false, keys[1..], t, rest)))
  }

  function PrintTargets(key: string, t: map<string, string>, rest: string): string {
    key + ("{" + PrintMembers(true, SortedKeys(t.Keys), t, rest))
  }

  /** The fields from targets on. */
  function PrintLater(e: Event): string {
    PrintTargets(",\"targets\":", e.targets,
    PrintNumber(",\"status\":", e.status,
    PrintText(",\"outcome\":", e.outcome,
    PrintText(",\"client_ip\":", e.clientIp,
    PrintText(",\"user_agent\":", e.userAgent,
    PrintNumber(",\"count\":", e.count, "}"))))))
  }

  /** Canonical: every field but the hash, in this order, without white space. */
  function Canonical(e: Event): string {
    PrintNumber("{\"id\":", e.id,
    PrintText(",\"time\":", FormatTime(e.time),
    PrintText(",\"actor_kind\":", e.actorKind,
    PrintText(",\"actor_user_id\":", e.actorUserId,
    PrintText(",\"actor_name\":", e.actorName,
    PrintText(",\"actor_key_id\":", e.actorKeyId,
    PrintText(",\"actor_key_name\":", e.actorKeyName,
    PrintText(",\"action\":", e.action, PrintLater(e)))))))))
  }

  function ReadText(key: string, s: string): (r: Option<(string, string)>)
    ensures r.Some? ==> |r.value.1| < |s|
  {
    var t :- Expect(key, s);
    ReadString(t)
  }

  function ReadNumber(key: string, s: string): (r: Option<(int, string)>)
    ensures r.Some? ==> |r.value.1| < |s|
  {
    var t :- Expect(key, s);
    ReadInt(t)
  }

  /** Reads the members of a targets object up to its closing brace. */
  function ReadMembers(first: bool, s: string, seen: map<string, string>): Option<(map<string, string>, string)>
    decreases |s|
  {
    if s != [] && s[0] == '}' then Some((seen, s[1..])) else
    var a :- Expect(if first then "" else ",", s);
    var (k, b) :- ReadString(a);
    var (v, c) :- ReadText(":", b);
    ReadMembers(false, c, seen[k := v])
  }

  function ReadTargets(key: string, s: string): Option<(map<string, string>, string)> {
    var a :- Expect(key, s);
    var b :- Expect("{", a);
    ReadMembers(true, b, map[])
  }

  datatype Later = Later(targets: map<string, string>, status: int, outcome: string, clientIp: string, userAgent: string, count: int)

  function ParseLater(s: string): Option<Later> {
    var (targets, a) :- ReadTargets(",\"targets\":", s);
    var (status, b) :- ReadNumber(",\"status\":", a);
    var (outcome, c) :- ReadText(",\"outcome\":", b);
    var (clientIp, d) :- ReadText(",\"client_ip\":", c);
    var (userAgent, f) :- ReadText(",\"user_agent\":", d);
    var (count, g) :- ReadNumber(",\"count\":", f);
    if g == "}" then Some(Later(targets, status, outcome, clientIp, userAgent, count)) else None
  }

  /** A parser of the canonical form, giving the event without its hash. */
  function Parse(s: string): Option<Event> {
    var (id, a) :- ReadNumber("{\"id\":", s);
    var (timeText, b) :- ReadText(",\"time\":", a);
    var time :- ParseTime(timeText);
    var (kind, c) :- ReadText(",\"actor_kind\":", b);
    var (userId, d) :- ReadText(",\"actor_user_id\":", c);
    var (name, f) :- ReadText(",\"actor_name\":", d);
    var (keyId, g) :- ReadText(",\"actor_key_id\":", f);
    var (keyName, h) :- ReadText(",\"actor_key_name\":", g);
    var (action, i) :- ReadText(",\"action\":", h);
    var l :- ParseLater(i);
    Some(Event(id, time, kind, userId, name, keyId, keyName, action, l.targets, l.status, l.outcome, l.clientIp, l.userAgent, l.count, ""))
  }

  lemma ReadTextRoundTrip(key: string, v: string, rest: string)
    ensures ReadText(key, PrintText(key, v, rest)) == Some((v, rest))
  {
    ExpectRoundTrip(key, Quoted(v, rest));
    ReadStringRoundTrip(v, rest);
  }

  lemma ReadNumberRoundTrip(key: string, n: int, rest: string)
    requires StartsWithoutDigit(rest)
    ensures ReadNumber(key, PrintNumber(key, n, rest)) == Some((n, rest))
  {
    ExpectRoundTrip(key, Itoa(n) + rest);
    ReadIntRoundTrip(n, rest);
  }

  /** seen extended with the members keys of t. */
  ghost function Extend(seen: map<string, string>, keys: seq<string>, t: map<string, string>): map<string, string> {
    seen + map k | k in t && k in keys :: t[k]
  }

  lemma ReadMember(first: bool, k: string, v: string, after: string, seen: map<string, string>)
    ensures ReadMembers(first, (if first then "" else ",") + Quoted(k, ":" + Quoted(v, after)), seen)
         == ReadMembers(false, after, seen[k := v])
  {
    var sep := if first then "" else ",";
    var s := sep + Quoted(k, ":" + Quoted(v, after));
    ExpectRoundTrip(sep, Quoted(k, ":" + Quoted(v, after)));
    ReadStringRoundTrip(k, ":" + Quoted(v, after));
    ReadTextRoundTrip(":", v, after);
    assert s[0] != '}';
  }

  lemma ExtendStep(seen: map<string, string>, keys: seq<string>, t: map<string, string>)
    requires keys != [] && keys[0] in t
    ensures Extend(seen[keys[0] := t[keys[0]]], keys[1..], t) == Extend(seen, keys, t)
  {
    assert keys == [keys[0]] + keys[1..];
  }

  lemma {:induction false} ReadMembersRoundTrip(first: bool, keys: seq<string>, t: map<string, string>, rest: string, seen: map<string, string>)
    requires forall k :: k in keys ==> k in t
    ensures ReadMembers(first, PrintMembers(first, keys, t, rest), seen) == Some((Extend(seen, keys, t), rest))
    decreases |keys|
  {
    if keys == [] {
      assert ("}" + rest)[1..] == rest;
      assert Extend(seen, keys, t) == seen;
    } else {
      ReadMember(first, keys[0], t[keys[0]], PrintMembers(false, keys[1..], t, rest), seen);
      ReadMembersRoundTrip(false, keys[1..], t, rest, seen[keys[0] := t[keys[0]]]);
      ExtendStep(seen, keys, t);
    }
  }

  lemma ReadTargetsRoundTrip(key: string, t: map<string, string>, rest: string)
    ensures ReadTargets(key, PrintTargets(key, t, rest)) == Some((t, rest))
  {
    var keys := SortedKeys(t.Keys);
    var members := PrintMembers(true, keys, t, rest);
    ExpectRoundTrip(key, "{" + members);
    ExpectRoundTrip("{", members);
    ReadMembersRoundTrip(true, keys, t, rest, map[]);
    assert Extend(map[], keys, t) == t;
  }

  lemma ParseLaterRoundTrip(e: Event)
    ensures ParseLater(PrintLater(e)) == Some(Later(e.targets, e.status, e.outcome, e.clientIp, e.userAgent, e.count))
  {
    var f := PrintNumber(",\"count\":", e.count, "}");
    var d := PrintText(",\"user_agent\":", e.userAgent, f);
    var c := PrintText(",\"client_ip\":", e.clientIp, d);
    var b := PrintText(",\"outcome\":", e.outcome, c);
    var a := PrintNumber(",\"status\":", e.status, b);
    ReadTargetsRoundTrip(",\"targets\":", e.targets, a);
    ReadNumberRoundTrip(",\"status\":", e.status, b);
    ReadTextRoundTrip(",\"outcome\":", e.outcome, c);
    ReadTextRoundTrip(",\"client_ip\":", e.clientIp, d);
    ReadTextRoundTrip(",\"user_agent\":", e.userAgent, f);
    ReadNumberRoundTrip(",\"count\":", e.count, "}");
  }

  /** The canonical document determines every hashed field of every event. */
  lemma CanonicalRoundTrip(e: Event)
    ensures Parse(Canonical(e)) == Some(e.(hash := ""))
  {
    var i := PrintLater(e);
    var h := PrintText(",\"action\":", e.action, i);
    var g := PrintText(",\"actor_key_name\":", e.actorKeyName, h);
    var f := PrintText(",\"actor_key_id\":", e.actorKeyId, g);
    var d := PrintText(",\"actor_name\":", e.actorName, f);
    var c := PrintText(",\"actor_user_id\":", e.actorUserId, d);
    var b := PrintText(",\"actor_kind\":", e.actorKind, c);
    var a := PrintText(",\"time\":", FormatTime(e.time), b);
    ReadNumberRoundTrip("{\"id\":", e.id, a);
    ReadTextRoundTrip(",\"time\":", FormatTime(e.time), b);
    TimeRoundTrip(e.time);
    ReadTextRoundTrip(",\"actor_kind\":", e.actorKind, c);
    ReadTextRoundTrip(",\"actor_user_id\":", e.actorUserId, d);
    ReadTextRoundTrip(",\"actor_name\":", e.actorName, f);
    ReadTextRoundTrip(",\"actor_key_id\":", e.actorKeyId, g);
    ReadTextRoundTrip(",\"actor_key_name\":", e.actorKeyName, h);
    ReadTextRoundTrip(",\"action\":", e.action, i);
    ParseLaterRoundTrip(e);
  }

  /** Two events with one canonical document differ at most in their stored hash. */
  lemma CanonicalInjective(a: Event, b: Event)
    requires Canonical(a) == Canonical(b)
    ensures a.(hash := "") == b.(hash := "")
  {
    CanonicalRoundTrip(a);
    CanonicalRoundTrip(b);
  }
}
