// Effective access and single sign-on mappings (internal/auth/connections.go,
// internal/auth/scope.go, internal/auth/role.go, internal/auth/external.go).
module Access {
  import opened Decimal
  import opened Ordering
  import opened Text

  // ---- Scopes and roles ----

  datatype Scope = Read | Operator | Admin | UnknownScope(name: string) {
    function Rank(): nat { match this { case Read => 1 case Operator => 2 case Admin => 3 case UnknownScope(_) => 0 } }
    predicate Valid() { Rank() > 0 }
    predicate Allows(need: Scope) { Valid() && need.Valid() && Rank() >= need.Rank() }
  }

  /** The empty role is OtherRole(""). */
  datatype Role = ViewerRole | OperatorRole | AdminRole | OtherRole(name: string) {
    function Rank(): nat { match this { case ViewerRole => 1 case OperatorRole => 2 case AdminRole => 3 case OtherRole(_) => 0 } }
    function Scope(): Scope { match this { case OperatorRole => Operator case AdminRole => Admin case _ => Read } }
  }

  datatype Method = Session | ApiKey | System | OtherMethod

  function MinScope(a: Scope, b: Scope): Scope { if a.Rank() <= b.Rank() then a else b }

  // ---- Connection sets ----

  /** The connections a caller may touch; None is every connection. */
  type Connections = Option<set<string>>

  predicate AllowsId(s: Connections, id: string) { s.None? || (id != "" && id in s.value) }

  function Intersect(s: Connections, o: Connections): Connections {
    if s.None? then o else if o.None? then s else Some(set id | id in s.value && id in o.value)
  }

  predicate Covers(s: Connections, o: Connections) { s.None? || (o.Some? && forall id :: id in o.value ==> id in s.value) }

  /** Intersect allows what both allow, and is limited exactly when one of them is. */
  lemma IntersectIsMeet(s: Connections, o: Connections, id: string)
    ensures AllowsId(Intersect(s, o), id) <==> AllowsId(s, id) && AllowsId(o, id)
    ensures Intersect(s, o).Some? <==> s.Some? || o.Some?
  {
  }

  /** Every connection o allows is allowed by s. */
  ghost predicate Includes(s: Connections, o: Connections) { forall id :: AllowsId(o, id) ==> AllowsId(s, id) }

  /**
   * Covers says whether every connection o allows is allowed by s, except for exactly one family:
   * a limited o whose only member outside s is the empty ID, which o does not allow either.
   */
  lemma CoversExactly(s: Connections, o: Connections)
    ensures (Covers(s, o) <==> Includes(s, o))
       <==> !(s.Some? && o.Some? && "" in o.value && "" !in s.value && o.value - {""} <= s.value)
  {
    if s.Some? && o.None? {
      assert AllowsId(o, "") && !AllowsId(s, "");
    } else if s.Some? && o.Some? {
      assert Includes(s, o) <==> o.value - {""} <= s.value by {
        if Includes(s, o) {
          forall id | id in o.value - {""}
            ensures id in s.value
          {
            assert AllowsId(o, id);
          }
        }
      }
    }
  }

  /** A set of the empty ID alone allows no connection, yet the empty set does not cover it. */
  lemma CoversExample()
    ensures !Covers(Some({}), Some({""})) && Includes(Some({}), Some({""}))
  {
    assert "" in {""};
  }

  // ---- Effective access ----

  datatype Grant = Grant(scope: Scope, connections: Connections)

  /** What effective access is computed from. */
  datatype Caller = Caller(via: Method, role: Role, keyScope: Scope, hasCreator: bool, user: Connections, key: Connections)

  function EffectiveScope(c: Caller): Scope {
    match c.via
    case Session => c.role.Scope()
    case ApiKey =>
      var own := if c.keyScope.Valid() then c.keyScope else Read;
      if c.hasCreator then MinScope(own, c.role.Scope()) else own
    case System => Admin
    case OtherMethod => Read
  }

  function EffectiveConnections(c: Caller): Connections {
    match c.via
    case Session => if c.role == AdminRole then None else c.user
    case ApiKey => if !c.hasCreator then None else if c.role == AdminRole then c.key else Intersect(c.key, c.user)
    case _ => None
  }

  function EffectiveAccess(c: Caller): Grant {
    var scope, connections := EffectiveScope(c), EffectiveConnections(c);
    Grant(if connections.Some? && scope == Admin then Operator else scope, connections)
  }

  /** A session, or an API key with a creator. */
  predicate Bounded(c: Caller) { c.via == Session || (c.via == ApiKey && c.hasCreator) }

  /** b may do nothing that a may not: no scope, no connection, and not every connection. */
  ghost predicate NoMore(b: Grant, a: Grant) {
    && (forall need: Scope :: b.scope.Allows(need) ==> a.scope.Allows(need))
    && Includes(a.connections, b.connections)
    && (b.connections.None? ==> a.connections.None?)
  }

  /** b is a with a lower or equal role and key scope and narrower or equal connection sets. */
  ghost predicate Lower(b: Caller, a: Caller) {
    && b.via == a.via && b.hasCreator == a.hasCreator
    && b.role.Rank() <= a.role.Rank() && b.keyScope.Rank() <= a.keyScope.Rank()
    && Narrower(b.user, a.user) && Narrower(b.key, a.key)
  }

  ghost predicate Narrower(o: Connections, s: Connections) { Includes(s, o) && (o.None? ==> s.None?) }

  /** Lowering the role, the key's scope or either connection set never adds a right. */
  lemma Monotone(b: Caller, a: Caller)
    requires Bounded(a) && Lower(b, a)
    ensures NoMore(EffectiveAccess(b), EffectiveAccess(a))
  {
    ConnectionsMonotone(b, a);
  }

  lemma ConnectionsMonotone(b: Caller, a: Caller)
    requires Bounded(a) && Lower(b, a)
    ensures Narrower(EffectiveConnections(b), EffectiveConnections(a))
  {
    var x, y := EffectiveConnections(b), EffectiveConnections(a);
    forall id | AllowsId(x, id)
      ensures AllowsId(y, id)
    {
      IntersectIsMeet(b.key, b.user, id);
      IntersectIsMeet(a.key, a.user, id);
    }
  }

  /**
   * Effective access is a meet: a session or a key with a creator has a scope exactly when the
   * role has it, the key has it (a key of unknown scope reads), and it is not admin for a caller
   * limited to some connections; it may touch a connection exactly when the key allows it and the
   * user does or is an administrator.
   */
  lemma AccessIsMeet(c: Caller, need: Scope, id: string)
    requires Bounded(c)
    ensures EffectiveAccess(c).scope.Allows(need)
       <==> && c.role.Scope().Allows(need)
            && (c.via == ApiKey ==> c.keyScope.Allows(need) || (need == Read && !c.keyScope.Valid()))
            && (need == Admin ==> EffectiveAccess(c).connections.None?)
    ensures AllowsId(EffectiveAccess(c).connections, id)
       <==> (c.via == ApiKey ==> AllowsId(c.key, id)) && (c.role == AdminRole || AllowsId(c.user, id))
  {
    IntersectIsMeet(c.key, c.user, id);
  }

  /** The admin scope comes with every connection, for every caller. */
  lemma AdminHasEveryConnection(c: Caller)
    requires EffectiveAccess(c).scope.Allows(Admin)
    ensures EffectiveAccess(c).connections.None?
    ensures Bounded(c) ==> c.role == AdminRole
  {
  }

  // ---- Connection IDs ----

  const MAX_IDS := 256
  const MAX_ID_LENGTH := 128

  predicate Control(c: char) { c < ' ' || c == '\U{7F}' }

  predicate ValidId(id: string) { id != "" && Bytes(id) <= MAX_ID_LENGTH && forall i :: 0 <= i < |id| ==> !Control(id[i]) }

  datatype Ids = InvalidIds | Ids(ids: seq<string>)

  function TrimmedSet(ids: seq<string>): set<string> { set i | 0 <= i < |ids| :: Trim(ids[i]) }

  /** NormalizeConnectionIDs. */
  function Normalized(ids: seq<string>): Ids {
    if ids == [] then Ids([])
    else if |ids| > MAX_IDS || exists i :: 0 <= i < |ids| && !ValidId(Trim(ids[i])) then InvalidIds
    else Ids(SortedKeys(TrimmedSet(ids)))
  }

  method NormalizeConnectionIDs(ids: seq<string>) returns (r: Ids)
    ensures r == Normalized(ids)
  {
    if |ids| == 0 { return Ids([]); }
    if |ids| > MAX_IDS { return InvalidIds; }
    var out: set<string> := {};
    for i := 0 to |ids|
      invariant forall j :: 0 <= j < i ==> ValidId(Trim(ids[j]))
      invariant out == TrimmedSet(ids[..i])
    {
      var id := Trim(ids[i]);
      if !ValidId(id) { return InvalidIds; }
      assert TrimmedSet(ids[..i + 1]) == TrimmedSet(ids[..i]) + {id};
      out := out + {id};
    }
    assert ids[..|ids|] == ids;
    return Ids(SortedKeys(out));
  }

  lemma {:induction false} SetNotLonger(ids: seq<string>)
    ensures |TrimmedSet(ids)| <= |ids|
  {
    if ids != [] {
      var init := ids[..|ids| - 1];
      SetNotLonger(init);
      assert TrimmedSet(ids) == TrimmedSet(init) + {Trim(ids[|ids| - 1])};
    }
  }

  /** Every trimmed ID of a list that normalizes is valid, and trimming leaves it alone. */
  lemma TrimmedValid(ids: seq<string>, id: string)
    requires Normalized(ids).Ids? && id in TrimmedSet(ids)
    ensures ValidId(id) && Trim(id) == id
  {
    var k :| 0 <= k < |ids| && Trim(ids[k]) == id;
    TrimTwice(ids[k]);
  }

  lemma TrimmedSetOfClean(out: seq<string>, keys: set<string>)
    requires (forall id :: id in out <==> id in keys) && forall i :: 0 <= i < |out| ==> Trim(out[i]) == out[i]
    ensures TrimmedSet(out) == keys
  {
    forall id | id in keys
      ensures id in TrimmedSet(out)
    {
      var j :| 0 <= j < |out| && out[j] == id;
      assert Trim(out[j]) == id;
    }
  }

  /** A normalized list is sorted without repetition, holds no empty ID, and has the trimmed IDs. */
  lemma NormalizedIsSorted(ids: seq<string>)
    requires Normalized(ids).Ids?
    ensures var out := Normalized(ids).ids; Increasing(out) && "" !in out && |out| <= |ids| && forall id :: id in out <==> id in TrimmedSet(ids)
  {
    if ids != [] {
      SortedKeysIncreasing(TrimmedSet(ids));
      SetNotLonger(ids);
      if "" in TrimmedSet(ids) { TrimmedValid(ids, ""); }
    }
  }

  /** Normalizing a normalized list again changes nothing. */
  lemma NormalizedIsFixed(ids: seq<string>)
    requires Normalized(ids).Ids?
    ensures Normalized(Normalized(ids).ids) == Normalized(ids)
  {
    var out := Normalized(ids).ids;
    NormalizedIsSorted(ids);
    if ids != [] {
      forall i | 0 <= i < |out|
        ensures Trim(out[i]) == out[i] && ValidId(out[i])
      {
        assert out[i] in out;
        TrimmedValid(ids, out[i]);
      }
      TrimmedSetOfClean(out, TrimmedSet(ids));
      assert Trim(ids[0]) in TrimmedSet(ids);
    }
  }

  /** Covers is exact for the sets the program builds: those of normalized lists. */
  lemma CoversNormalized(ids: seq<string>, other: seq<string>)
    requires Normalized(ids).Ids? && Normalized(other).Ids?
    ensures var s, o := Some(set id | id in Normalized(ids).ids), Some(set id | id in Normalized(other).ids); Covers(s, o) <==> Includes(s, o)
  {
    NormalizedIsSorted(other);
    CoversExactly(Some(set id | id in Normalized(ids).ids), Some(set id | id in Normalized(other).ids));
  }

  // ---- Single sign-on ----

  datatype Mapping = Mapping(group: string, role: Role, every: bool, ids: seq<string>)

  datatype Policy = Policy(mappings: seq<Mapping>, defaultRole: Role)

  predicate Matches(m: Mapping, groups: set<string>) { m.group != "" && m.group in groups }

  /** Some mapping gives the members of groups a role. */
  predicate Grants(mappings: set<Mapping>, groups: set<string>, role: Role) {
    exists m :: m in mappings && Matches(m, groups) && m.role == role
  }

  function Mappings(p: Policy): set<Mapping> { set m | m in p.mappings }

  function Members(s: seq<string>): set<string> { set g | g in s }

  /** The role of the members of groups, with no regard to any order: the highest one granted, else the default. */
  function RoleOf(mappings: set<Mapping>, defaultRole: Role, groups: set<string>): Role {
    if Grants(mappings, groups, AdminRole) then AdminRole
    else if Grants(mappings, groups, OperatorRole) then OperatorRole
    else if Grants(mappings, groups, ViewerRole) then ViewerRole
    else if defaultRole == ViewerRole || defaultRole == OperatorRole then defaultRole
    else OtherRole("")
  }

  /** The best role granted by the mappings seen so far. */
  ghost predicate Best(mappings: seq<Mapping>, groups: set<string>, best: Role) {
    && (best != OtherRole("") ==> best.Rank() > 0 && exists i :: 0 <= i < |mappings| && Matches(mappings[i], groups) && mappings[i].role == best)
    && forall i :: 0 <= i < |mappings| && Matches(mappings[i], groups) ==> mappings[i].role.Rank() <= best.Rank()
  }

  method MapRole(p: Policy, groups: seq<string>) returns (best: Role)
    ensures best == RoleOf(Mappings(p), p.defaultRole, Members(groups))
  {
    best := OtherRole("");
    for i := 0 to |p.mappings|
      invariant Best(p.mappings[..i], Members(groups), best)
    {
      var m := p.mappings[i];
      if m.group != "" && m.role.Rank() > best.Rank() && m.group in groups { best := m.role; }
    }
    assert p.mappings[..|p.mappings|] == p.mappings;
    BestIsRole(p, Members(groups), best);
    if best == OtherRole("") && (p.defaultRole == ViewerRole || p.defaultRole == OperatorRole) { best := p.defaultRole; }
  }

  lemma GrantsAt(p: Policy, groups: set<string>, role: Role)
    ensures Grants(Mappings(p), groups, role) <==> exists i :: 0 <= i < |p.mappings| && Matches(p.mappings[i], groups) && p.mappings[i].role == role
  {
    if Grants(Mappings(p), groups, role) {
      var m :| m in Mappings(p) && Matches(m, groups) && m.role == role;
      var i :| 0 <= i < |p.mappings| && p.mappings[i] == m;
    }
  }

  lemma BestIsRole(p: Policy, groups: set<string>, best: Role)
    requires Best(p.mappings, groups, best)
    ensures RoleOf(Mappings(p), p.defaultRole, groups)
         == if best == OtherRole("") && (p.defaultRole == ViewerRole || p.defaultRole == OperatorRole) then p.defaultRole else best
  {
    GrantsAt(p, groups, AdminRole);
    GrantsAt(p, groups, OperatorRole);
    GrantsAt(p, groups, ViewerRole);
  }

  /** The access to connections of the members of groups with role, with no regard to any order. */
  function ConnectionsOf(mappings: set<Mapping>, groups: set<string>, role: Role): Connections {
    if role == AdminRole || !Grants(mappings, groups, role) || exists m :: m in mappings && Matches(m, groups) && m.role == role && m.every
    then None
    else Some(set m, id | m in mappings && Matches(m, groups) && m.role == role && id in m.ids :: id)
  }

  /** MapConnections; a limited result is the sorted list of the set. */
  method MapConnections(p: Policy, groups: seq<string>, role: Role) returns (access: Connections)
    ensures access == ConnectionsOf(Mappings(p), Members(groups), role)
  {
    if role == AdminRole { return None; }
    var union: set<string>, matched := {}, false;
    ghost var gs := Members(groups);
    for i := 0 to |p.mappings|
      invariant matched <==> exists j :: 0 <= j < i && Matches(p.mappings[j], gs) && p.mappings[j].role == role
      invariant forall j :: 0 <= j < i && Matches(p.mappings[j], gs) && p.mappings[j].role == role ==> !p.mappings[j].every
      invariant forall id :: id in union <==> GivenBy(p.mappings[..i], gs, role, id)
    {
      var m := p.mappings[i];
      GivenNext(p.mappings, i, gs, role);
      if m.group == "" || m.role != role || m.group !in groups { continue; }
      if m.every { return None; }
      matched := true;
      union := union + set id | id in m.ids;
    }
    assert p.mappings[..|p.mappings|] == p.mappings;
    GrantsAt(p, gs, role);
    if !matched { return None; }
    GivenIsUnion(p, gs, role, union);
    return Some(union);
  }

  /** A matching mapping of the role lists the connection. */
  predicate GivenBy(mappings: seq<Mapping>, groups: set<string>, role: Role, id: string) {
    exists j :: 0 <= j < |mappings| && Matches(mappings[j], groups) && mappings[j].role == role && id in mappings[j].ids
  }

  lemma GivenNext(mappings: seq<Mapping>, i: nat, groups: set<string>, role: Role)
    requires i < |mappings|
    ensures forall id ::
              GivenBy(mappings[..i + 1], groups, role, id)
              <==> GivenBy(mappings[..i], groups, role, id) || (Matches(mappings[i], groups) && mappings[i].role == role && id in mappings[i].ids)
  {
    var a, b := mappings[..i], mappings[..i + 1];
    assert b[i] == mappings[i] && forall j :: 0 <= j < i ==> a[j] == b[j];
  }

  lemma GivenIsUnion(p: Policy, groups: set<string>, role: Role, union: set<string>)
    requires forall id :: id in union <==> GivenBy(p.mappings, groups, role, id)
    ensures union == set m, id | m in Mappings(p) && Matches(m, groups) && m.role == role && id in m.ids :: id
  {
    forall id | GivenBy(p.mappings, groups, role, id)
      ensures exists m :: m in Mappings(p) && Matches(m, groups) && m.role == role && id in m.ids
    {
      var j :| 0 <= j < |p.mappings| && Matches(p.mappings[j], groups) && p.mappings[j].role == role && id in p.mappings[j].ids;
      assert p.mappings[j] in Mappings(p);
    }
    forall m | m in Mappings(p) && Matches(m, groups) && m.role == role
      ensures forall id :: id in m.ids ==> GivenBy(p.mappings, groups, role, id)
    {
      var j :| 0 <= j < |p.mappings| && p.mappings[j] == m;
    }
  }

  /** Neither the order nor the repetition of mappings and groups matters. */
  lemma OrderDoesNotMatter(p: Policy, q: Policy, g: seq<string>, h: seq<string>, role: Role)
    requires multiset(p.mappings) == multiset(q.mappings) && p.defaultRole == q.defaultRole && multiset(g) == multiset(h)
    ensures RoleOf(Mappings(p), p.defaultRole, Members(g)) == RoleOf(Mappings(q), q.defaultRole, Members(h))
    ensures ConnectionsOf(Mappings(p), Members(g), role) == ConnectionsOf(Mappings(q), Members(h), role)
  {
    assert Mappings(p) == Mappings(q) by {
      assert forall m :: m in p.mappings <==> m in multiset(p.mappings);
      assert forall m :: m in q.mappings <==> m in multiset(q.mappings);
    }
    assert Members(g) == Members(h) by {
      assert forall x :: x in g <==> x in multiset(g);
      assert forall x :: x in h <==> x in multiset(h);
    }
  }

  predicate GrantsAny(mappings: set<Mapping>, groups: set<string>) {
    Grants(mappings, groups, ViewerRole) || Grants(mappings, groups, OperatorRole) || Grants(mappings, groups, AdminRole)
  }

  lemma GrantsGrow(mappings: set<Mapping>, groups: set<string>, g: string, role: Role)
    ensures Grants(mappings, groups + {g}, role) <==> Grants(mappings, groups, role) || Grants(mappings, {g}, role)
  {
    if Grants(mappings, groups, role) {
      var m :| m in mappings && Matches(m, groups) && m.role == role;
      assert Matches(m, groups + {g});
    }
    if Grants(mappings, {g}, role) {
      var m :| m in mappings && Matches(m, {g}) && m.role == role;
      assert Matches(m, groups + {g});
    }
  }

  /**
   * Adding a group lowers the role if and only if no mapping gave a role before, so that the
   * default operator role applied, and the new group's mappings give viewer at most: a mapping
   * replaces the default role, also by a lower one.
   */
  lemma AddedGroupLowers(mappings: set<Mapping>, defaultRole: Role, groups: set<string>, g: string)
    ensures RoleOf(mappings, defaultRole, groups + {g}).Rank() < RoleOf(mappings, defaultRole, groups).Rank()
       <==> && !GrantsAny(mappings, groups) && defaultRole == OperatorRole
            && Grants(mappings, {g}, ViewerRole) && !Grants(mappings, {g}, OperatorRole) && !Grants(mappings, {g}, AdminRole)
  {
    GrantsGrow(mappings, groups, g, ViewerRole);
    GrantsGrow(mappings, groups, g, OperatorRole);
    GrantsGrow(mappings, groups, g, AdminRole);
  }

  /** A member of no mapped group is an operator by default, and a viewer once they join a mapped viewer group. */
  lemma AddedGroupLowersExample()
    ensures var ms := {Mapping("auditors", ViewerRole, true, [])};
            RoleOf(ms, OperatorRole, {}) == OperatorRole && RoleOf(ms, OperatorRole, {"auditors"}) == ViewerRole
  {
    var m := Mapping("auditors", ViewerRole, true, []);
    assert Matches(m, {"auditors"}) && m in {m};
  }
}
