/** Customer access to a database: the names derived from customer identifiers, the check of a
    whole access list, and the values the chart renders from it. */
module Access {
  import opened Base

  datatype Engine = OpenSearch | Valkey | OtherEngine

  /** `owner` is "" for the engine's own app user. */
  datatype Database = Database(name: string, owner: string)

  /** A customer-defined OpenSearch role. */
  datatype Role = Role(name: string, patterns: seq<string>, actions: seq<string>)

  datatype User = User(name: string, databases: seq<string>, roles: seq<string>)

  // ----- names -----

  /** `identRE`: a lower-case letter, then at most thirty of [a-z0-9_]. */
  predicate ValidIdent(s: string) {
    && 1 <= |s| <= 31 && 'a' <= s[0] <= 'z'
    && forall i :: 0 <= i < |s| ==> 'a' <= s[i] <= 'z' || '0' <= s[i] <= '9' || s[i] == '_'
  }

  /** `strings.ReplaceAll(ident, "_", "-")`. */
  function K8sName(s: string): (r: string)
    ensures |r| == |s| && forall i :: 0 <= i < |s| ==> r[i] == if s[i] == '_' then '-' else s[i]
  {
    if s == [] then [] else [if s[0] == '_' then '-' else s[0]] + K8sName(s[1..])
  }

  /** Without a hyphen, as in every identifier, a name can be read back from its mapped form. */
  lemma K8sNameInjective(a: string, b: string)
    requires '-' !in a && '-' !in b && K8sName(a) == K8sName(b)
    ensures a == b
  {
    forall i | 0 <= i < |a| ensures a[i] == b[i] {
      assert K8sName(a)[i] == K8sName(b)[i];
    }
  }

  function UserSecretName(db: string, user: string): string {
    db + "-u-" + K8sName(user)
  }

  lemma UserSecretsDistinct(db: string, a: string, b: string)
    requires ValidIdent(a) && ValidIdent(b)
    ensures UserSecretName(db, a) == UserSecretName(db, b) <==> a == b
  {
    var p := db + "-u-";
    if UserSecretName(db, a) == UserSecretName(db, b) {
      assert UserSecretName(db, a)[|p|..] == K8sName(a) && UserSecretName(db, b)[|p|..] == K8sName(b);
      K8sNameInjective(a, b);
    }
  }

  const NET_SHARE: string := "-net-share"

  /** The orphan sweep takes every managed secret named `*-net-share` for a marker.  A user's
      password secret is taken for one exactly when the user is called `net_share` or ends in
      `_net_share`, names the list check accepts. */
  lemma UserSecretLooksLikeMarker(db: string, user: string)
    requires ValidIdent(user)
    ensures HasSuffix(UserSecretName(db, user), NET_SHARE) <==> HasSuffix("_" + user, "_net_share")
  {
    hide K8sName;
    var name, long := UserSecretName(db, user), "_" + user;
    var mapped := K8sName(long);
    assert mapped == "-" + K8sName(user);
    assert name == db + "-u" + mapped;
    MappedMarker();
    if |long| >= 10 {
      var b := long[|long| - 10..];
      assert name[|name| - 10..] == mapped[|long| - 10..];
      assert K8sName(b) == mapped[|long| - 10..];
      if K8sName(b) == NET_SHARE { K8sNameInjective(b, "_net_share"); }
    } else if |name| >= 10 {
      // two characters before the mapped user comes a 'u', where the marker suffix has none
      assert name[|name| - 10..][9 - |long|] == 'u';
    }
  }

  lemma MappedMarker()
    ensures |NET_SHARE| == 10 && |"_net_share"| == 10 && '-' !in "_net_share" && 'u' !in NET_SHARE
    ensures K8sName("_net_share") == NET_SHARE
  {
    hide K8sName;
    var a, b := K8sName("_net_share"), NET_SHARE;
    assert a[0] == b[0] && a[1] == b[1] && a[2] == b[2] && a[3] == b[3] && a[4] == b[4];
    assert a[5] == b[5] && a[6] == b[6] && a[7] == b[7] && a[8] == b[8] && a[9] == b[9];
  }

  /** The shape of a Kubernetes object name (RFC 1123, section 2.1): letters, digits, dots and
      hyphens, a letter or digit at both ends, at most 253 characters. */
  predicate IsObjectName(n: string) {
    && 1 <= |n| <= 253 && n[0] !in {'-', '.'} && n[|n| - 1] !in {'-', '.'}
    && forall i :: 0 <= i < |n| ==> 'a' <= n[i] <= 'z' || '0' <= n[i] <= '9' || n[i] == '-' || n[i] == '.'
  }

  lemma MappedFits(id: string, middle: string, name: string)
    requires IsObjectName(id) && |id| <= 180 && middle in {"-u-", "-g-"} && |name| <= 63 && name != []
    requires forall i :: 0 <= i < |name| ==> 'a' <= name[i] <= 'z' || '0' <= name[i] <= '9' || name[i] == '-'
    ensures IsObjectName(id + middle + name) <==> name[|name| - 1] != '-'
  {
    var n := id + middle + name;
    assert n[|n| - 1] == name[|name| - 1] && n[0] == id[0];
    forall i | 0 <= i < |n| ensures 'a' <= n[i] <= 'z' || '0' <= n[i] <= '9' || n[i] == '-' || n[i] == '.' {
      if |id| <= i < |id| + 3 {
        assert n[i] == middle[i - |id|];
      } else if i >= |id| + 3 {
        assert n[i] == name[i - |id| - 3];
      }
    }
  }

  /** The mapping gives a secret the name of a Kubernetes object exactly when the user's name does
      not end in an underscore, which the list check allows; the same of grants and the names of
      their databases. */
  lemma ObjectNamesFit(id: string, user: string, db: string)
    requires IsObjectName(id) && |id| <= 180 && ValidIdent(user) && ValidIdent(db)
    ensures IsObjectName(UserSecretName(id, user)) <==> user[|user| - 1] != '_'
    ensures IsObjectName(GrantName(id, user, db)) <==> db[|db| - 1] != '_'
  {
    hide IsObjectName;
    MappedFits(id, "-u-", K8sName(user));
    MappedFits(id, "-g-", GrantKey(user, db));
    assert GrantKey(user, db)[|GrantKey(user, db)| - 1] == K8sName(db)[|db| - 1];
  }

  function GrantKey(user: string, db: string): string {
    K8sName(user) + "-" + K8sName(db)
  }

  /** The object the chart renders for one grant. */
  function GrantName(id: string, user: string, db: string): string {
    id + "-g-" + GrantKey(user, db)
  }

  /** A pair of identifiers cannot be read back: the separator is also a mapped character. */
  lemma GrantKeysCollide()
    ensures GrantKey("a_b", "c") == GrantKey("a", "b_c")
  {
    assert K8sName("a_b") == "a-b" && K8sName("b_c") == "b-c" && K8sName("c") == "c" && K8sName("a") == "a";
  }

  function Reserved(): set<string> {
    {
      "postgres", "app", "root", "mysql", "mariadb", "admin", "kibanaserver", "template0", "template1",
      "streaming_replica", "cnpg_metrics_exporter", "default"
    }
  }

  // ----- what an acceptable list is -----

  function BuiltInRoles(): set<string> {
    {
      "all_access", "readall", "readall_and_monitor", "kibana_user", "kibana_read_only", "manage_snapshots",
      "alerting_read_access", "alerting_full_access", "index_management_full_access", "logstash"
    }
  }

  function ActionGroups(): set<string> {
    {
      "read", "search", "get", "write", "index", "crud", "delete", "create_index", "manage", "indices_all", "data_access"
    }
  }

  predicate PatternOk(p: string) {
    1 <= |p| <= 255 && forall i :: 0 <= i < |p| ==> p[i] !in {' ', '\t', '\n', '"', '\'', '\\'}
  }

  predicate RoleOk(r: Role) {
    && ValidIdent(r.name) && r.name !in BuiltInRoles()
    && r.patterns != [] && r.actions != []
    && (forall i :: 0 <= i < |r.patterns| ==> PatternOk(r.patterns[i]))
    && (forall i :: 0 <= i < |r.actions| ==> r.actions[i] in ActionGroups())
  }

  predicate RolesOk(roles: seq<Role>) {
    && (forall i :: 0 <= i < |roles| ==> RoleOk(roles[i]))
    && (forall i, j :: 0 <= i < j < |roles| ==> roles[i].name != roles[j].name)
  }

  /** What a user may be given: a built-in role or one declared in the same list. */
  function Offered(roles: seq<Role>): set<string> {
    BuiltInRoles() + set r | r in roles :: r.name
  }

  predicate UserOk(engine: Engine, offered: set<string>, u: User) {
    && ValidIdent(u.name) && u.name !in Reserved()
    && (engine == OpenSearch ==> forall r :: r in u.roles ==> r in offered)
  }

  predicate DatabaseOk(names: set<string>, d: Database) {
    ValidIdent(d.name) && d.name !in Reserved() && (d.owner != "" ==> d.owner in names)
  }

  function UserNames(users: seq<User>): set<string> {
    set u | u in users :: u.name
  }

  function DatabaseNames(dbs: seq<Database>): set<string> {
    set d | d in dbs :: d.name
  }

  /** Position (i, j) is the j-th grant of the i-th user. */
  predicate IsGrant(users: seq<User>, i: int, j: int) {
    0 <= i < |users| && 0 <= j < |users[i].databases|
  }

  function KeyAt(users: seq<User>, i: int, j: int): string
    requires IsGrant(users, i, j)
  {
    GrantKey(users[i].name, users[i].databases[j])
  }

  predicate Earlier(i: int, j: int, k: int, l: int) {
    i < k || (i == k && j < l)
  }

  ghost predicate KeysDistinct(users: seq<User>) {
    forall i, j, k, l :: IsGrant(users, i, j) && IsGrant(users, k, l) && Earlier(i, j, k, l) ==> KeyAt(users, i, j) != KeyAt(users, k, l)
  }

  ghost predicate Acceptable(engine: Engine, roles: seq<Role>, dbs: seq<Database>, users: seq<User>) {
    && (engine == OpenSearch ==> RolesOk(roles))
    && (engine == Valkey ==> dbs == [] && forall i :: 0 <= i < |users| ==> users[i].databases == [])
    && (forall i :: 0 <= i < |users| ==> UserOk(engine, Offered(roles), users[i]))
    && (forall i, j :: 0 <= i < j < |users| ==> users[i].name != users[j].name)
    && (forall i :: 0 <= i < |dbs| ==> DatabaseOk(UserNames(users), dbs[i]))
    && (forall i, j :: 0 <= i < j < |dbs| ==> dbs[i].name != dbs[j].name)
    && (forall i, j :: IsGrant(users, i, j) ==> users[i].databases[j] in DatabaseNames(dbs))
    && KeysDistinct(users)
  }

  // ----- the check -----

  /** Names first, then patterns, then actions, role by role. */
  method ValidateOSRoles(roles: seq<Role>) returns (ok: bool)
    ensures ok <==> RolesOk(roles)
  {
    hide ValidIdent, PatternOk;
    var seen: set<string> := {};
    for i := 0 to |roles|
      invariant forall k :: 0 <= k < i ==> RoleOk(roles[k])
      invariant forall j, k :: 0 <= j < k < i ==> roles[j].name != roles[k].name
      invariant seen == set k | 0 <= k < i :: roles[k].name
    {
      var r := roles[i];
      if !ValidIdent(r.name) || r.name in seen || r.name in BuiltInRoles() || |r.patterns| == 0 || |r.actions| == 0 { return false; }
      seen := seen + {r.name};
      for j := 0 to |r.patterns|
        invariant forall l :: 0 <= l < j ==> PatternOk(r.patterns[l])
      {
        if !PatternOk(r.patterns[j]) { return false; }
      }
      for j := 0 to |r.actions|
        invariant forall l :: 0 <= l < j ==> r.actions[l] in ActionGroups()
      {
        if r.actions[j] !in ActionGroups() { return false; }
      }
    }
    ok := true;
  }

  /** The users seen so far, by name. */
  method CheckUsers(engine: Engine, offered: set<string>, users: seq<User>) returns (ok: bool, names: set<string>)
    ensures ok <==> ((forall i :: 0 <= i < |users| ==> UserOk(engine, offered, users[i])) &&
                     (forall i, j :: 0 <= i < j < |users| ==> users[i].name != users[j].name))
    ensures ok ==> names == UserNames(users)
  {
    hide ValidIdent;
    names := {};
    for i := 0 to |users|
      invariant names == UserNames(users[..i])
      invariant forall k :: 0 <= k < i ==> UserOk(engine, offered, users[k])
      invariant forall k, l :: 0 <= k < l < i ==> users[k].name != users[l].name
    {
      var u := users[i];
      assert users[..i + 1] == users[..i] + [u];
      if !ValidIdent(u.name) || u.name in Reserved() { return false, names; }
      if u.name in names {
        var v :| v in users[..i] && v.name == u.name;
        return false, names;
      }
      assert forall k :: 0 <= k < i ==> users[k] in users[..i];
      names := names + {u.name};
      if engine == OpenSearch {
        for k := 0 to |u.roles|
          invariant forall l :: 0 <= l < k ==> u.roles[l] in offered
        {
          if u.roles[k] !in offered { return false, names; }
        }
      }
    }
    assert users[..|users|] == users;
    ok := true;
  }

  method CheckDatabases(names: set<string>, dbs: seq<Database>) returns (ok: bool, dbNames: set<string>)
    ensures ok <==> ((forall i :: 0 <= i < |dbs| ==> DatabaseOk(names, dbs[i])) &&
                     (forall i, j :: 0 <= i < j < |dbs| ==> dbs[i].name != dbs[j].name))
    ensures ok ==> dbNames == DatabaseNames(dbs)
  {
    hide ValidIdent;
    dbNames := {};
    for i := 0 to |dbs|
      invariant dbNames == DatabaseNames(dbs[..i])
      invariant forall k :: 0 <= k < i ==> DatabaseOk(names, dbs[k])
      invariant forall k, l :: 0 <= k < l < i ==> dbs[k].name != dbs[l].name
    {
      var d := dbs[i];
      assert dbs[..i + 1] == dbs[..i] + [d];
      if !ValidIdent(d.name) || d.name in Reserved() { return false, dbNames; }
      if d.name in dbNames {
        var e :| e in dbs[..i] && e.name == d.name;
        return false, dbNames;
      }
      if d.owner != "" && d.owner !in names { return false, dbNames; }
      assert forall k :: 0 <= k < i ==> dbs[k] in dbs[..i];
      dbNames := dbNames + {d.name};
    }
    assert dbs[..|dbs|] == dbs;
    ok := true;
  }

  /** Every grant before position (i, j) is in the map under its key, with distinct keys. */
  ghost predicate Scanned(users: seq<User>, dbNames: set<string>, grants: map<string, (int, int)>, i: int, j: int) {
    && (forall k, l :: IsGrant(users, k, l) && Earlier(k, l, i, j) ==>
          users[k].databases[l] in dbNames && KeyAt(users, k, l) in grants && grants[KeyAt(users, k, l)] == (k, l))
    && (forall key :: key in grants ==> var (k, l) := grants[key]; IsGrant(users, k, l) && Earlier(k, l, i, j) && KeyAt(users, k, l) == key)
  }

  /** The collision guard: one map from derived key to the grant that took it. */
  method CheckGrants(dbNames: set<string>, users: seq<User>) returns (ok: bool)
    ensures ok <==> (forall i, j :: IsGrant(users, i, j) ==> users[i].databases[j] in dbNames) && KeysDistinct(users)
  {
    hide GrantKey;
    var grants: map<string, (int, int)> := map[];
    for i := 0 to |users|
      invariant Scanned(users, dbNames, grants, i, 0)
    {
      for j := 0 to |users[i].databases|
        invariant Scanned(users, dbNames, grants, i, j)
      {
        var d := users[i].databases[j];
        assert IsGrant(users, i, j);
        if d !in dbNames { return false; }
        var key := GrantKey(users[i].name, d);
        if key in grants {
          Collision(users, dbNames, grants, i, j);
          return false;
        }
        ScanStep(users, dbNames, grants, i, j);
        grants := grants[key := (i, j)];
      }
      ScanRow(users, dbNames, grants, i);
    }
    ScanEnd(users, dbNames, grants);
    ok := true;
  }

  lemma Collision(users: seq<User>, dbNames: set<string>, grants: map<string, (int, int)>, i: int, j: int)
    requires Scanned(users, dbNames, grants, i, j) && IsGrant(users, i, j) && KeyAt(users, i, j) in grants
    ensures !KeysDistinct(users)
  {
    hide KeyAt;
    var (k, l) := grants[KeyAt(users, i, j)];
    assert IsGrant(users, k, l) && Earlier(k, l, i, j) && KeyAt(users, k, l) == KeyAt(users, i, j);
  }

  lemma ScanStep(users: seq<User>, dbNames: set<string>, grants: map<string, (int, int)>, i: int, j: int)
    requires Scanned(users, dbNames, grants, i, j) && IsGrant(users, i, j)
    requires users[i].databases[j] in dbNames && KeyAt(users, i, j) !in grants
    ensures Scanned(users, dbNames, grants[KeyAt(users, i, j) := (i, j)], i, j + 1)
  {
    hide KeyAt;
    forall k, l | IsGrant(users, k, l) && Earlier(k, l, i, j + 1)
      ensures var g := grants[KeyAt(users, i, j) := (i, j)];
        users[k].databases[l] in dbNames && KeyAt(users, k, l) in g && g[KeyAt(users, k, l)] == (k, l)
    {
      assert Earlier(k, l, i, j) || (k, l) == (i, j);
    }
  }

  lemma ScanRow(users: seq<User>, dbNames: set<string>, grants: map<string, (int, int)>, i: int)
    requires 0 <= i < |users| && Scanned(users, dbNames, grants, i, |users[i].databases|)
    ensures Scanned(users, dbNames, grants, i + 1, 0)
  {
    hide KeyAt;
    assert forall k, l :: IsGrant(users, k, l) && Earlier(k, l, i + 1, 0) ==> Earlier(k, l, i, |users[i].databases|);
  }

  lemma ScanEnd(users: seq<User>, dbNames: set<string>, grants: map<string, (int, int)>)
    requires Scanned(users, dbNames, grants, |users|, 0)
    ensures KeysDistinct(users) && forall i, j :: IsGrant(users, i, j) ==> users[i].databases[j] in dbNames
  {
    hide KeyAt;
    forall i, j, k, l | IsGrant(users, i, j) && IsGrant(users, k, l) && Earlier(i, j, k, l) ensures KeyAt(users, i, j) != KeyAt(users, k, l) {
      assert Earlier(i, j, |users|, 0) && Earlier(k, l, |users|, 0);
    }
  }

  /** `ValidateAccess` accepts exactly the acceptable lists. */
  method ValidateAccess(engine: Engine, roles: seq<Role>, dbs: seq<Database>, users: seq<User>) returns (ok: bool)
    ensures ok <==> Acceptable(engine, roles, dbs, users)
  {
    hide UserOk, DatabaseOk, KeysDistinct, UserNames, DatabaseNames;
    if engine == OpenSearch {
      var rolesOk := ValidateOSRoles(roles);
      if !rolesOk { return false; }
    }
    if engine == Valkey {
      if |dbs| > 0 { return false; }
      for i := 0 to |users|
        invariant forall k :: 0 <= k < i ==> users[k].databases == []
      {
        if |users[i].databases| > 0 { return false; }
      }
    }
    var usersOk, names := CheckUsers(engine, Offered(roles), users);
    if !usersOk { return false; }
    var dbsOk, dbNames := CheckDatabases(names, dbs);
    if !dbsOk { return false; }
    ok := CheckGrants(dbNames, users);
  }

  /** A name the check accepts, written out. */
  predicate IsFreeName(s: string) {
    && 1 <= |s| <= 31 && 'a' <= s[0] <= 'z'
    && (forall i :: 0 <= i < |s| ==> 'a' <= s[i] <= 'z' || '0' <= s[i] <= '9' || s[i] == '_')
    && s != "postgres" && s != "app" && s != "root" && s != "mysql" && s != "mariadb" && s != "admin" && s != "kibanaserver"
    && s != "template0" && s != "template1" && s != "streaming_replica" && s != "cnpg_metrics_exporter" && s != "default"
  }

  lemma FreeNames(s: string)
    ensures IsFreeName(s) <==> ValidIdent(s) && s !in Reserved()
  {
  }

  /** In an accepted list every name is free, no user or database is listed twice, every owner is a
      listed user and every grant is on a listed database. */
  lemma AcceptedNamesAreFree(engine: Engine, roles: seq<Role>, dbs: seq<Database>, users: seq<User>)
    requires Acceptable(engine, roles, dbs, users)
    ensures forall u :: u in users ==> IsFreeName(u.name) && forall d :: d in u.databases ==> exists e :: e in dbs && e.name == d
    ensures forall d :: d in dbs ==> IsFreeName(d.name) && (d.owner == "" || exists u :: u in users && u.name == d.owner)
    ensures forall i, j :: 0 <= i < j < |users| ==> users[i].name != users[j].name
    ensures forall i, j :: 0 <= i < j < |dbs| ==> dbs[i].name != dbs[j].name
    ensures engine == Valkey ==> dbs == [] && forall u :: u in users ==> u.databases == []
  {
    hide IsFreeName, ValidIdent, Reserved, KeysDistinct;
    forall u | u in users ensures IsFreeName(u.name) && forall d :: d in u.databases ==> exists e :: e in dbs && e.name == d {
      var i :| 0 <= i < |users| && users[i] == u;
      assert UserOk(engine, Offered(roles), users[i]);
      FreeNames(u.name);
      forall d | d in u.databases ensures exists e :: e in dbs && e.name == d {
        var j :| 0 <= j < |u.databases| && u.databases[j] == d;
        assert IsGrant(users, i, j) && d in DatabaseNames(dbs);
      }
    }
    forall d | d in dbs ensures IsFreeName(d.name) && (d.owner == "" || exists u :: u in users && u.name == d.owner) {
      FreeNames(d.name);
      assert DatabaseOk(UserNames(users), d);
    }
  }

  /** Which names the check takes: the free ones, of users and of databases alike. */
  lemma SingleName(s: string)
    ensures Acceptable(OtherEngine, [], [], [User(s, [], [])]) <==> IsFreeName(s)
    ensures Acceptable(Valkey, [], [], [User(s, [], [])]) <==> IsFreeName(s)
    ensures Acceptable(OtherEngine, [], [Database(s, "")], []) <==> IsFreeName(s)
  {
    hide IsFreeName, ValidIdent, Reserved;
    FreeNames(s);
    var u, d := User(s, [], []), Database(s, "");
    assert [u][0] == u && [d][0] == d;
    assert Acceptable(OtherEngine, [], [], [u]) <==> UserOk(OtherEngine, Offered([]), u);
    assert Acceptable(Valkey, [], [], [u]) <==> UserOk(Valkey, Offered([]), u);
    assert Acceptable(OtherEngine, [], [d], []) <==> DatabaseOk(UserNames([]), d);
  }

  /** Which OpenSearch roles may be given without being declared. */
  lemma SingleRole(u: string, r: string)
    requires IsFreeName(u)
    ensures Acceptable(OpenSearch, [], [], [User(u, [], [r])]) <==>
      r == "all_access" || r == "readall" || r == "readall_and_monitor" || r == "kibana_user" || r == "kibana_read_only" || r == "manage_snapshots"
      || r == "alerting_read_access" || r == "alerting_full_access" || r == "index_management_full_access" || r == "logstash"
  {
    hide IsFreeName, ValidIdent, Reserved;
    FreeNames(u);
    var x := User(u, [], [r]);
    assert [x][0] == x && r in x.roles;
    assert Offered([]) == BuiltInRoles();
    assert Acceptable(OpenSearch, [], [], [x]) <==> UserOk(OpenSearch, Offered([]), x);
    assert UserOk(OpenSearch, Offered([]), x) <==> r in BuiltInRoles();
  }

  /** A declared role is accepted with an unused name, a pattern of a plain kind and one of eleven
      actions. */
  lemma SingleAction(name: string, pattern: string, action: string)
    ensures Acceptable(OpenSearch, [Role(name, [pattern], [action])], [], []) <==>
      && ValidIdent(name) && name !in BuiltInRoles() && 1 <= |pattern| <= 255
      && (forall i :: 0 <= i < |pattern| ==> pattern[i] !in {' ', '\t', '\n', '"', '\'', '\\'})
      && (action == "read" || action == "search" || action == "get" || action == "write" || action == "index" || action == "crud" || action == "delete"
          || action == "create_index" || action == "manage" || action == "indices_all" || action == "data_access")
  {
    hide ValidIdent, Reserved, BuiltInRoles;
    var role := Role(name, [pattern], [action]);
    assert [role][0] == role && role.actions[0] == action && role.patterns[0] == pattern;
    assert Acceptable(OpenSearch, [role], [], []) <==> RoleOk(role);
    assert RoleOk(role) <==> ValidIdent(name) && name !in BuiltInRoles() && PatternOk(pattern) && action in ActionGroups();
  }

  /** MAIN RESULT.  In an accepted list the object names derived for the grants are pairwise
      distinct, and so are the names of the users' password secrets. */
  lemma DerivedNamesDistinct(engine: Engine, roles: seq<Role>, dbs: seq<Database>, users: seq<User>, id: string)
    requires Acceptable(engine, roles, dbs, users)
    ensures forall i, j, k, l :: IsGrant(users, i, j) && IsGrant(users, k, l) && (i, j) != (k, l) ==>
      GrantName(id, users[i].name, users[i].databases[j]) != GrantName(id, users[k].name, users[k].databases[l])
    ensures forall i, k :: 0 <= i < k < |users| ==> UserSecretName(id, users[i].name) != UserSecretName(id, users[k].name)
  {
    hide GrantKey, K8sName, DatabaseOk, UserSecretName;
    forall i, j, k, l | IsGrant(users, i, j) && IsGrant(users, k, l) && (i, j) != (k, l)
      ensures GrantName(id, users[i].name, users[i].databases[j]) != GrantName(id, users[k].name, users[k].databases[l])
    {
      assert Earlier(i, j, k, l) || Earlier(k, l, i, j);
      assert KeyAt(users, i, j) != KeyAt(users, k, l);
      PrefixKept(id + "-g-", KeyAt(users, i, j), KeyAt(users, k, l));
    }
    forall i, k | 0 <= i < k < |users| ensures UserSecretName(id, users[i].name) != UserSecretName(id, users[k].name) {
      assert UserOk(engine, Offered(roles), users[i]) && UserOk(engine, Offered(roles), users[k]);
      UserSecretsDistinct(id, users[i].name, users[k].name);
    }
  }

  lemma PrefixKept(p: string, a: string, b: string)
    ensures p + a == p + b <==> a == b
  {
    assert (p + a)[|p|..] == a && (p + b)[|p|..] == b;
  }
}
