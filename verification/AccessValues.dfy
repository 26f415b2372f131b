/** Owners and role memberships rendered into the chart values. */
module AccessValues {
  import opened Base
  import opened Access

  // ----- effective owners -----

  /** The owner the list gives a database (the last entry of that name counts). */
  function DeclaredOwner(dbs: seq<Database>, name: string): string {
    if dbs == [] then ""
    else if dbs[|dbs| - 1].name == name then dbs[|dbs| - 1].owner
    else DeclaredOwner(dbs[..|dbs| - 1], name)
  }

  /** The first named user that asked for the database. */
  function FirstAsking(users: seq<User>, name: string): string {
    if users == [] then ""
    else if users[0].name != "" && name in users[0].databases then users[0].name
    else FirstAsking(users[1..], name)
  }

  function OwnerOf(dbs: seq<Database>, users: seq<User>, name: string): string {
    var declared := DeclaredOwner(dbs, name);
    if declared != "" then declared else FirstAsking(users, name)
  }

  lemma {:induction false} FirstAskingSnoc(users: seq<User>, u: User, name: string)
    ensures FirstAsking(users + [u], name) ==
      if FirstAsking(users, name) != "" then FirstAsking(users, name) else if name in u.databases then u.name else ""
  {
    if users == [] {
      assert users + [u] == [u] && [u][1..] == [];
    } else {
      assert (users + [u])[1..] == users[1..] + [u];
      FirstAskingSnoc(users[1..], u, name);
    }
  }

  lemma NobodyAsks(name: string)
    ensures FirstAsking([], name) == ""
  {
  }

  /** The effective owner by position: the owner of the last entry of that name, or, where there is
      none, the first named user that lists the database, or nobody. */
  lemma {:induction false} OwnerByPosition(dbs: seq<Database>, users: seq<User>, name: string, i: nat, k: nat)
    requires i < |dbs| && dbs[i].name == name && forall j :: i < j < |dbs| ==> dbs[j].name != name
    requires k <= |users| && (forall j :: 0 <= j < k ==> users[j].name == "" || name !in users[j].databases)
    requires k < |users| ==> users[k].name != "" && name in users[k].databases
    ensures OwnerOf(dbs, users, name) == if dbs[i].owner != "" then dbs[i].owner else if k < |users| then users[k].name else ""
  {
    LastDeclares(dbs, name, i);
    FirstAsks(users, name, k);
  }

  lemma {:induction false} LastDeclares(dbs: seq<Database>, name: string, i: nat)
    requires i < |dbs| && dbs[i].name == name && forall j :: i < j < |dbs| ==> dbs[j].name != name
    ensures DeclaredOwner(dbs, name) == dbs[i].owner
  {
    if i < |dbs| - 1 { LastDeclares(dbs[..|dbs| - 1], name, i); }
  }

  lemma {:induction false} FirstAsks(users: seq<User>, name: string, k: nat)
    requires k <= |users| && (forall j :: 0 <= j < k ==> users[j].name == "" || name !in users[j].databases)
    requires k < |users| ==> users[k].name != "" && name in users[k].databases
    ensures FirstAsking(users, name) == if k < |users| then users[k].name else ""
  {
    if k > 0 { FirstAsks(users[1..], name, k - 1); }
  }

  /** `effectiveOwners`: the declared owners, then the first user asking for each database
      that has none. */
  method EffectiveOwners(dbs: seq<Database>, users: seq<User>) returns (out: map<string, string>)
    ensures out.Keys == DatabaseNames(dbs)
    ensures forall name :: name in out ==> out[name] == OwnerOf(dbs, users, name)
  {
    hide FirstAsking, DeclaredOwner, DatabaseNames;
    out := DeclaredOwners(dbs);
    assert users[..0] == [];
    forall name | name in out ensures out[name] == OwnerOf(dbs, [], name) { NobodyAsks(name); }
    for i := 0 to |users|
      invariant out.Keys == DatabaseNames(dbs)
      invariant forall name :: name in out ==> out[name] == OwnerOf(dbs, users[..i], name)
    {
      ghost var before := out;
      out := Claim(out, users[i]);
      assert users[..i + 1] == users[..i] + [users[i]];
      forall name | name in out ensures out[name] == OwnerOf(dbs, users[..i + 1], name) {
        assert before[name] == OwnerOf(dbs, users[..i], name);
        FirstAskingSnoc(users[..i], users[i], name);
      }
    }
    assert users[..|users|] == users;
  }

  method DeclaredOwners(dbs: seq<Database>) returns (out: map<string, string>)
    ensures out.Keys == DatabaseNames(dbs)
    ensures forall name :: name in out ==> out[name] == DeclaredOwner(dbs, name)
  {
    out := map[];
    for i := 0 to |dbs|
      invariant out.Keys == DatabaseNames(dbs[..i])
      invariant forall name :: name in out ==> out[name] == DeclaredOwner(dbs[..i], name)
    {
      assert dbs[..i + 1] == dbs[..i] + [dbs[i]] && dbs[..i + 1][..i] == dbs[..i];
      out := out[dbs[i].name := dbs[i].owner];
    }
    assert dbs[..|dbs|] == dbs;
  }

  /** One user claims the databases it lists that are still without an owner. */
  method Claim(owners: map<string, string>, u: User) returns (out: map<string, string>)
    ensures out.Keys == owners.Keys
    ensures forall name :: name in out ==> out[name] == if owners[name] == "" && name in u.databases then u.name else owners[name]
  {
    out := owners;
    for j := 0 to |u.databases|
      invariant out.Keys == owners.Keys
      invariant forall name :: name in out ==> out[name] == if owners[name] == "" && name in u.databases[..j] then u.name else owners[name]
    {
      assert u.databases[..j + 1] == u.databases[..j] + [u.databases[j]];
      var name := u.databases[j];
      if name in out && out[name] == "" { out := out[name := u.name]; }
    }
    assert u.databases[..|u.databases|] == u.databases;
  }

  /** `databasesValues`: each database with its effective owner ("" leaves the key off). */
  method DatabasesValues(dbs: seq<Database>, users: seq<User>) returns (out: seq<Database>)
    ensures |out| == |dbs|
    ensures forall i :: 0 <= i < |dbs| ==> out[i] == Database(dbs[i].name, OwnerOf(dbs, users, dbs[i].name))
  {
    var owners := EffectiveOwners(dbs, users);
    out := [];
    for i := 0 to |dbs|
      invariant |out| == i
      invariant forall k :: 0 <= k < i ==> out[k] == Database(dbs[k].name, OwnerOf(dbs, users, dbs[k].name))
    {
      assert dbs[i] in dbs && dbs[i].name in owners;
      out := out + [Database(dbs[i].name, owners[dbs[i].name])];
    }
  }

  // ----- role memberships -----

  datatype UserValue = UserValue(name: string, databases: seq<string>, inRoles: seq<string>, roles: seq<string>)

  /** The role `o` opens the database `d` to the user: it owns it and is neither blank nor the
      user itself. */
  predicate Opens(dbs: seq<Database>, users: seq<User>, u: User, d: string, o: string) {
    d in DatabaseNames(dbs) && OwnerOf(dbs, users, d) == o && o != "" && o != u.name
  }

  /** `inRoles`: exactly the owners of the listed databases other than the user, each once. */
  ghost predicate Memberships(dbs: seq<Database>, users: seq<User>, u: User, listed: seq<string>, inRoles: seq<string>) {
    && (forall o :: o in inRoles <==> exists d :: d in listed && Opens(dbs, users, u, d, o))
    && (forall i, j :: 0 <= i < j < |inRoles| ==> inRoles[i] != inRoles[j])
  }

  method InRoles(dbs: seq<Database>, ghost users: seq<User>, owner: map<string, string>, u: User) returns (owners: seq<string>)
    requires owner.Keys == DatabaseNames(dbs) && forall name :: name in owner ==> owner[name] == OwnerOf(dbs, users, name)
    ensures Memberships(dbs, users, u, u.databases, owners)
  {
    hide OwnerOf;
    owners := [];
    var seen: set<string> := {};
    for j := 0 to |u.databases|
      invariant seen == set o | o in owners
      invariant Memberships(dbs, users, u, u.databases[..j], owners)
    {
      var d := u.databases[j];
      ghost var before := owners;
      var o := if d in owner then owner[d] else "";
      if o != "" && o != u.name && o !in seen {
        seen := seen + {o};
        owners := owners + [o];
      }
      assert u.databases[..j + 1] == u.databases[..j] + [d];
      MembershipStep(dbs, users, u, u.databases[..j], d, before, owners);
    }
    assert u.databases[..|u.databases|] == u.databases;
  }

  lemma MembershipStep(dbs: seq<Database>, users: seq<User>, u: User, listed: seq<string>, d: string, before: seq<string>, after: seq<string>)
    requires Memberships(dbs, users, u, listed, before)
    requires var o := if d in DatabaseNames(dbs) then OwnerOf(dbs, users, d) else "";
      after == if o != "" && o != u.name && o !in before then before + [o] else before
    ensures Memberships(dbs, users, u, listed + [d], after)
  {
    hide OwnerOf, DatabaseNames;
    var more := listed + [d];
    forall o ensures o in after <==> exists e :: e in more && Opens(dbs, users, u, e, o) {
      if o in before {
        var e :| e in listed && Opens(dbs, users, u, e, o);
        assert e in more;
      } else if o in after {
        assert d in more && Opens(dbs, users, u, d, o);
      }
      if exists e :: e in more && Opens(dbs, users, u, e, o) {
        var e :| e in more && Opens(dbs, users, u, e, o);
        assert e in listed || e == d;
      }
    }
  }

  /** `usersValues`. */
  method UsersValues(dbs: seq<Database>, users: seq<User>) returns (out: seq<UserValue>)
    ensures |out| == |users|
    ensures forall i :: 0 <= i < |users| ==>
      && out[i].name == users[i].name && out[i].databases == users[i].databases && out[i].roles == users[i].roles
      && Memberships(dbs, users, users[i], users[i].databases, out[i].inRoles)
  {
    hide OwnerOf, Memberships;
    var owner := EffectiveOwners(dbs, users);
    out := [];
    for i := 0 to |users|
      invariant |out| == i
      invariant forall k :: 0 <= k < i ==>
        && out[k].name == users[k].name && out[k].databases == users[k].databases && out[k].roles == users[k].roles
        && Memberships(dbs, users, users[k], users[k].databases, out[k].inRoles)
    {
      var inRoles := InRoles(dbs, users, owner, users[i]);
      out := out + [UserValue(users[i].name, users[i].databases, inRoles, users[i].roles)];
    }
  }

  // ----- every grant is reachable -----

  lemma {:induction false} SomeoneAsks(users: seq<User>, i: nat, name: string)
    requires i < |users| && name in users[i].databases && forall k :: 0 <= k < |users| ==> users[k].name != ""
    ensures FirstAsking(users, name) != "" && exists k :: 0 <= k < |users| && users[k].name == FirstAsking(users, name)
  {
    if name in users[0].databases {
      assert users[0].name == FirstAsking(users, name);
    } else {
      SomeoneAsks(users[1..], i - 1, name);
      var k :| 0 <= k < |users[1..]| && users[1..][k].name == FirstAsking(users[1..], name);
      assert users[k + 1].name == FirstAsking(users, name);
    }
  }

  lemma {:induction false} DeclaredIsListed(dbs: seq<Database>, name: string)
    ensures DeclaredOwner(dbs, name) == "" || exists i :: 0 <= i < |dbs| && dbs[i].name == name && dbs[i].owner == DeclaredOwner(dbs, name)
  {
    if dbs != [] && dbs[|dbs| - 1].name != name {
      DeclaredIsListed(dbs[..|dbs| - 1], name);
      if DeclaredOwner(dbs, name) != "" {
        var i :| 0 <= i < |dbs| - 1 && dbs[..|dbs| - 1][i].name == name && dbs[..|dbs| - 1][i].owner == DeclaredOwner(dbs, name);
        assert dbs[i].name == name;
      }
    }
  }

  /** MAIN RESULT.  In an accepted list every granted database has an effective owner among the
      listed users, and each user it was granted to is that owner or is a member of its role;
      no user is a member of its own role and none is listed twice. */
  lemma GrantsReach(engine: Engine, roles: seq<Role>, dbs: seq<Database>, users: seq<User>, i: int, j: int, inRoles: seq<string>)
    requires Acceptable(engine, roles, dbs, users) && IsGrant(users, i, j)
    requires Memberships(dbs, users, users[i], users[i].databases, inRoles)
    ensures var o := OwnerOf(dbs, users, users[i].databases[j]);
      && o != "" && o in UserNames(users)
      && (o == users[i].name || o in inRoles)
    ensures users[i].name !in inRoles && forall k, l :: 0 <= k < l < |inRoles| ==> inRoles[k] != inRoles[l]
  {
    hide ValidIdent, KeysDistinct;
    var d := users[i].databases[j];
    assert d in DatabaseNames(dbs);
    OwnerIsUser(engine, roles, dbs, users, i, j);
    var o := OwnerOf(dbs, users, d);
    if o != users[i].name {
      assert Opens(dbs, users, users[i], d, o);
    }
  }

  lemma OwnerIsUser(engine: Engine, roles: seq<Role>, dbs: seq<Database>, users: seq<User>, i: int, j: int)
    requires Acceptable(engine, roles, dbs, users) && IsGrant(users, i, j)
    ensures OwnerOf(dbs, users, users[i].databases[j]) != "" && OwnerOf(dbs, users, users[i].databases[j]) in UserNames(users)
  {
    hide KeysDistinct;
    var d := users[i].databases[j];
    forall k | 0 <= k < |users| ensures users[k].name != "" { assert UserOk(engine, Offered(roles), users[k]); }
    DeclaredIsListed(dbs, d);
    SomeoneAsks(users, i, d);
    if DeclaredOwner(dbs, d) != "" {
      var k :| 0 <= k < |dbs| && dbs[k].name == d && dbs[k].owner == DeclaredOwner(dbs, d);
      assert DatabaseOk(UserNames(users), dbs[k]);
    } else {
      var k :| 0 <= k < |users| && users[k].name == FirstAsking(users, d);
      assert users[k] in users;
    }
  }
}
