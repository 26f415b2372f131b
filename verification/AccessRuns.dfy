/** `SetAccess` step by step: secrets before the values patch, removals after it, and any of the
    steps may be the last one that happens; and the orphan sweep, which works on the same
    secrets by their names. */
module AccessRuns {
  import opened Base
  import opened Access
  import NetShare

  /** A password and the creation time of the secret that holds it. */
  datatype Secret = Secret(password: string, born: int)

  /** The secrets of the namespace by name, the users in the live values, the databases of the
      project that have an Application, and the time. */
  datatype Store = Store(secrets: map<string, Secret>, live: set<string>, apps: set<string>, now: int)

  datatype Micro = Put(user: string, password: string) | Patch(users: set<string>) | Drop(user: string)

  function Exec(db: string, s: Store, m: Micro): Store {
    match m
    case Put(u, p) => s.(secrets := s.secrets[UserSecretName(db, u) := Written(s.secrets, UserSecretName(db, u), p, s.now)])
    case Patch(us) => s.(live := us)
    case Drop(u) => s.(secrets := s.secrets - {UserSecretName(db, u)})
  }

  /** Applying a secret that is there already keeps its creation time. */
  function Written(secrets: map<string, Secret>, name: string, password: string, now: int): Secret {
    Secret(password, if name in secrets then secrets[name].born else now)
  }

  function ExecAll(db: string, s: Store, ms: seq<Micro>): Store {
    if ms == [] then s else Exec(db, ExecAll(db, s, ms[..|ms| - 1]), ms[|ms| - 1])
  }

  /** Every user in the live values has its password secret. */
  predicate Backed(db: string, s: Store) {
    forall u :: u in s.live ==> ValidIdent(u) && UserSecretName(db, u) in s.secrets
  }

  /** One call: secrets for the wanted users that are not live, the values patch, then the
      secrets of live users that are no longer wanted, in any order and with any of those
      deletions missing (they are best effort). */
  ghost predicate IsCall(live: set<string>, wanted: seq<string>, puts: seq<Micro>, drops: seq<Micro>) {
    && (forall m :: m in puts ==> m.Put? && m.user in wanted && m.user !in live)
    && (forall u :: u in wanted && u !in live ==> exists m :: m in puts && m.user == u)
    && (forall m :: m in drops ==> m.Drop? && m.user in live && m.user !in wanted)
  }

  function NameSet(names: seq<string>): set<string> {
    set u | u in names
  }

  predicate AllValid(names: set<string>) {
    forall u :: u in names ==> ValidIdent(u)
  }

  /** A kept user: in the live values before the call and wanted by it. */
  predicate Keeps(db: string, before: Store, now: Store, wanted: seq<string>) {
    forall u :: u in before.live && u in wanted ==>
      UserSecretName(db, u) in before.secrets && UserSecretName(db, u) in now.secrets
      && now.secrets[UserSecretName(db, u)] == before.secrets[UserSecretName(db, u)]
  }

  /** Writing or deleting one user's secret leaves every other user's alone. */
  lemma OthersUntouched(db: string, s: Store, m: Micro, v: string)
    requires !m.Patch? && ValidIdent(m.user) && ValidIdent(v) && v != m.user
    ensures var n := UserSecretName(db, v);
      && (n in Exec(db, s, m).secrets <==> n in s.secrets)
      && (n in s.secrets ==> Exec(db, s, m).secrets[n] == s.secrets[n])
  {
    UserSecretsDistinct(db, m.user, v);
  }

  lemma {:induction false} PutsKeep(db: string, s: Store, wanted: seq<string>, puts: seq<Micro>, drops: seq<Micro>, k: nat)
    requires IsCall(s.live, wanted, puts, drops) && Backed(db, s) && AllValid(NameSet(wanted)) && k <= |puts|
    ensures var z := ExecAll(db, s, puts[..k]);
      && z.live == s.live && Backed(db, z) && Keeps(db, s, z, wanted)
      && (forall i :: 0 <= i < k ==> UserSecretName(db, puts[i].user) in z.secrets)
  {
    hide UserSecretName, ValidIdent;
    if k > 0 {
      PutsKeep(db, s, wanted, puts, drops, k - 1);
      assert puts[..k][..k - 1] == puts[..k - 1] && puts[..k][k - 1] == puts[k - 1];
      var y, m := ExecAll(db, s, puts[..k - 1]), puts[k - 1];
      assert m in puts && m.Put? && m.user in NameSet(wanted);
      forall v | ValidIdent(v) && v != m.user
        ensures var n := UserSecretName(db, v);
          (n in Exec(db, y, m).secrets <==> n in y.secrets) && (n in y.secrets ==> Exec(db, y, m).secrets[n] == y.secrets[n])
      {
        OthersUntouched(db, y, m, v);
      }
    } else {
      assert puts[..0] == [];
    }
  }

  /** After all puts, every wanted user has a secret, so the patch may name them all. */
  lemma PatchKeeps(db: string, s: Store, wanted: seq<string>, puts: seq<Micro>, drops: seq<Micro>)
    requires IsCall(s.live, wanted, puts, drops) && Backed(db, s) && AllValid(NameSet(wanted))
    ensures var z := Exec(db, ExecAll(db, s, puts), Patch(NameSet(wanted)));
      z.live == NameSet(wanted) && Backed(db, z) && Keeps(db, s, z, wanted)
  {
    hide UserSecretName, ValidIdent;
    PutsKeep(db, s, wanted, puts, drops, |puts|);
    assert puts[..|puts|] == puts;
    var y := ExecAll(db, s, puts);
    forall u | u in NameSet(wanted) ensures UserSecretName(db, u) in y.secrets {
      if u !in s.live {
        var m :| m in puts && m.user == u;
        var i :| 0 <= i < |puts| && puts[i] == m;
      }
    }
  }

  lemma {:induction false} DropsKeep(db: string, s: Store, y: Store, wanted: seq<string>, puts: seq<Micro>, drops: seq<Micro>, k: nat)
    requires IsCall(s.live, wanted, puts, drops) && k <= |drops|
    requires Backed(db, s) && AllValid(NameSet(wanted))
    requires y.live == NameSet(wanted) && Backed(db, y) && Keeps(db, s, y, wanted)
    ensures var z := ExecAll(db, y, drops[..k]);
      && z.live == NameSet(wanted) && Backed(db, z) && Keeps(db, s, z, wanted)
      && (forall u :: u in wanted ==> z.secrets[UserSecretName(db, u)] == y.secrets[UserSecretName(db, u)])
  {
    hide UserSecretName, ValidIdent;
    if k > 0 {
      DropsKeep(db, s, y, wanted, puts, drops, k - 1);
      assert drops[..k][..k - 1] == drops[..k - 1] && drops[..k][k - 1] == drops[k - 1];
      var x, m := ExecAll(db, y, drops[..k - 1]), drops[k - 1];
      assert m in drops && m.Drop? && m.user in s.live && m.user !in wanted;
      forall v | ValidIdent(v) && v != m.user
        ensures var n := UserSecretName(db, v);
          (n in Exec(db, x, m).secrets <==> n in x.secrets) && (n in x.secrets ==> Exec(db, x, m).secrets[n] == x.secrets[n])
      {
        OthersUntouched(db, x, m, v);
      }
      assert forall u :: u in wanted ==> u in NameSet(wanted) && u != m.user;
    } else {
      assert drops[..0] == [];
    }
  }

  lemma {:induction false} ExecAppend(db: string, s: Store, a: seq<Micro>, b: seq<Micro>)
    ensures ExecAll(db, s, a + b) == ExecAll(db, ExecAll(db, s, a), b)
    decreases |b|
  {
    hide Exec;
    if b == [] {
      assert a + b == a;
    } else {
      var f := b[..|b| - 1];
      assert (a + b)[..|a + b| - 1] == a + f && (a + b)[|a + b| - 1] == b[|b| - 1];
      ExecAppend(db, s, a, f);
    }
  }

  function Script(wanted: seq<string>, puts: seq<Micro>, drops: seq<Micro>): seq<Micro> {
    puts + [Patch(NameSet(wanted))] + drops
  }

  lemma FinishedPuts(db: string, s: Store, wanted: seq<string>, puts: seq<Micro>, drops: seq<Micro>, k: nat)
    requires |puts| < k <= |puts| + 1 + |drops|
    ensures ExecAll(db, s, Script(wanted, puts, drops)[..k]) ==
            ExecAll(db, Exec(db, ExecAll(db, s, puts), Patch(NameSet(wanted))), drops[..k - |puts| - 1])
  {
    hide Exec;
    var p, rest := [Patch(NameSet(wanted))], drops[..k - |puts| - 1];
    assert Script(wanted, puts, drops)[..k] == puts + p + rest;
    ExecAppend(db, s, puts + p, rest);
    ExecAppend(db, s, puts, p);
    var y := ExecAll(db, s, puts);
    assert p[..0] == [] && ExecAll(db, y, p) == Exec(db, ExecAll(db, y, []), p[0]);
  }

  /** MAIN RESULT.  Wherever one call stops (after any number of its steps), every user in the
      live values has its password secret, users kept by the call keep theirs unchanged, and
      removing users deletes no other user's secret. */
  lemma CallKeeps(db: string, s: Store, wanted: seq<string>, puts: seq<Micro>, drops: seq<Micro>, k: nat)
    requires IsCall(s.live, wanted, puts, drops) && Backed(db, s) && AllValid(NameSet(wanted))
    requires k <= |Script(wanted, puts, drops)|
    ensures var z := ExecAll(db, s, Script(wanted, puts, drops)[..k]);
      && Backed(db, z) && Keeps(db, s, z, wanted)
      && z.live == if k <= |puts| then s.live else NameSet(wanted)
  {
    hide Exec, Backed, Keeps, IsCall, AllValid;
    if k <= |puts| {
      PutsKeep(db, s, wanted, puts, drops, k);
      assert Script(wanted, puts, drops)[..k] == puts[..k];
    } else {
      PatchKeeps(db, s, wanted, puts, drops);
      FinishedPuts(db, s, wanted, puts, drops, k);
      DropsKeep(db, s, Exec(db, ExecAll(db, s, puts), Patch(NameSet(wanted))), wanted, puts, drops, k - |puts| - 1);
    }
  }

  // ----- what a finished call leaves -----

  lemma {:induction false} PutsWrite(db: string, s: Store, puts: seq<Micro>, mint: string -> string, k: nat, u: string)
    requires k <= |puts| && ValidIdent(u)
    requires forall m :: m in puts ==> m.Put? && ValidIdent(m.user) && m.password == mint(m.user)
    ensures ExecAll(db, s, puts[..k]).now == s.now
    ensures var n, z := UserSecretName(db, u), ExecAll(db, s, puts[..k]);
      if exists i :: 0 <= i < k && puts[i].user == u then n in z.secrets && z.secrets[n] == Secret(mint(u), if n in s.secrets then s.secrets[n].born else s.now)
      else (n in z.secrets <==> n in s.secrets) && (n in s.secrets ==> z.secrets[n] == s.secrets[n])
  {
    hide UserSecretName, ValidIdent;
    if k == 0 {
      assert puts[..0] == [];
    } else {
      PutsWrite(db, s, puts, mint, k - 1, u);
      assert puts[..k][..k - 1] == puts[..k - 1] && puts[..k][k - 1] == puts[k - 1];
      assert puts[k - 1] in puts;
      if puts[k - 1].user != u { OthersUntouched(db, ExecAll(db, s, puts[..k - 1]), puts[k - 1], u); }
    }
  }

  lemma {:induction false} DropsRemove(db: string, s: Store, drops: seq<Micro>, k: nat, u: string)
    requires k <= |drops| && ValidIdent(u)
    requires forall m :: m in drops ==> m.Drop? && ValidIdent(m.user)
    ensures var n, z := UserSecretName(db, u), ExecAll(db, s, drops[..k]);
      if exists i :: 0 <= i < k && drops[i].user == u then n !in z.secrets
      else (n in z.secrets <==> n in s.secrets) && (n in s.secrets ==> z.secrets[n] == s.secrets[n])
  {
    hide UserSecretName, ValidIdent;
    if k == 0 {
      assert drops[..0] == [];
    } else {
      DropsRemove(db, s, drops, k - 1, u);
      assert drops[..k][..k - 1] == drops[..k - 1] && drops[..k][k - 1] == drops[k - 1];
      assert drops[k - 1] in drops;
      if drops[k - 1].user != u { OthersUntouched(db, ExecAll(db, s, drops[..k - 1]), drops[k - 1], u); }
    }
  }

  predicate Dropped(drops: seq<Micro>, u: string) {
    exists m :: m in drops && m.Drop? && m.user == u
  }

  /** What a finished call leaves of the user `u`. */
  predicate Left(db: string, s: Store, z: Store, wanted: seq<string>, drops: seq<Micro>, mint: string -> string, u: string) {
    var n := UserSecretName(db, u);
    && (u in z.live <==> u in wanted)
    && (u in wanted && u !in s.live ==> n in z.secrets && z.secrets[n] == Secret(mint(u), if n in s.secrets then s.secrets[n].born else s.now))
    && (u !in wanted && u in s.live && Dropped(drops, u) ==> n !in z.secrets)
    && ((u in wanted <==> u in s.live) || (u in s.live && !Dropped(drops, u)) ==>
          (n in z.secrets <==> n in s.secrets) && (n in s.secrets ==> z.secrets[n] == s.secrets[n]))
  }

  /** MAIN RESULT.  After a call that ran to its end exactly the wanted users are live; a user new
      in the list has the password minted for it, a user in the list before and after has the
      secret it had, and a user taken off the list has none, unless it could not be deleted. */
  lemma FinishedCallLeaves(db: string, s: Store, wanted: seq<string>, puts: seq<Micro>, drops: seq<Micro>, mint: string -> string, u: string)
    requires IsCall(s.live, wanted, puts, drops) && AllValid(NameSet(wanted)) && AllValid(s.live) && ValidIdent(u)
    requires forall m :: m in puts ==> m.password == mint(m.user)
    ensures Left(db, s, ExecAll(db, s, Script(wanted, puts, drops)), wanted, drops, mint, u)
  {
    hide UserSecretName, ValidIdent, Exec;
    var k := |Script(wanted, puts, drops)|;
    assert Script(wanted, puts, drops)[..k] == Script(wanted, puts, drops) && drops[..|drops|] == drops && puts[..|puts|] == puts;
    FinishedPuts(db, s, wanted, puts, drops, k);
    forall m | m in puts ensures ValidIdent(m.user) { assert m.user in NameSet(wanted); }
    PutsWrite(db, s, puts, mint, |puts|, u);
    var y := ExecAll(db, s, puts);
    PatchIs(db, y, NameSet(wanted));
    var p := Exec(db, y, Patch(NameSet(wanted)));
    DropsRemove(db, p, drops, |drops|, u);
    DropsKeepLive(db, p, drops);
    if m :| m in puts && m.user == u { var i :| 0 <= i < |puts| && puts[i] == m; }
    if m :| m in drops && m.Drop? && m.user == u { var i :| 0 <= i < |drops| && drops[i] == m; }
    assert forall i :: 0 <= i < |puts| ==> puts[i] in puts;
    assert forall i :: 0 <= i < |drops| ==> drops[i] in drops;
  }

  /** Every new user has the password minted for it, and no user that was removed and could be
      deleted has a secret. */
  predicate SecretsFollow(db: string, s: Store, z: Store, wanted: seq<string>, mint: string -> string, undeleted: set<string>) {
    && (forall u :: u in wanted && u !in s.live ==> UserSecretName(db, u) in z.secrets && z.secrets[UserSecretName(db, u)].password == mint(u))
    && (forall u :: u in s.live && u !in wanted && u !in undeleted ==> UserSecretName(db, u) !in z.secrets)
  }

  lemma CallLeaves(db: string, s: Store, z: Store, wanted: seq<string>, puts: seq<Micro>, drops: seq<Micro>, mint: string -> string, undeleted: set<string>)
    requires IsCall(s.live, wanted, puts, drops) && z == ExecAll(db, s, Script(wanted, puts, drops))
    requires forall m :: m in puts ==> m.password == mint(m.user)
    requires forall u :: u in s.live && u !in wanted && u !in undeleted ==> exists m :: m in drops && m.user == u
    ensures AllValid(NameSet(wanted)) && AllValid(s.live) ==> SecretsFollow(db, s, z, wanted, mint, undeleted)
  {
    hide UserSecretName, ValidIdent, Exec;
    if AllValid(NameSet(wanted)) && AllValid(s.live) {
      forall u | u in wanted || u in s.live ensures Left(db, s, z, wanted, drops, mint, u) {
        assert u in wanted ==> u in NameSet(wanted);
        FinishedCallLeaves(db, s, wanted, puts, drops, mint, u);
      }
    }
  }

  lemma {:induction false} DropsKeepLive(db: string, s: Store, drops: seq<Micro>)
    requires forall m :: m in drops ==> m.Drop?
    ensures ExecAll(db, s, drops).live == s.live
  {
    if drops != [] {
      DropsKeepLive(db, s, drops[..|drops| - 1]);
      assert drops[|drops| - 1] in drops;
    }
  }

  // ----- sequences of calls and sweeps -----

  /** A call that was accepted and stopped after some of its steps; time passing; or a sweep that
      finalized some of the secrets it takes for markers of orphans. */
  datatype Event =
    | Call(wanted: seq<string>, puts: seq<Micro>, drops: seq<Micro>, stop: nat)
    | Wait(d: nat)
    | Sweep(hits: set<string>)

  function Owner(name: string): string
    requires HasSuffix(name, NET_SHARE)
  {
    name[..|name| - |NET_SHARE|]
  }

  /** What the sweep takes for the marker of an orphan: an aged secret with the marker suffix and
      no Application called what is left of its name. */
  predicate LooksOrphaned(s: Store, name: string) {
    name in s.secrets && HasSuffix(name, NET_SHARE) && s.now - s.secrets[name].born >= NetShare.GRACE && Owner(name) !in s.apps
  }

  /** That is what the sweep over markers makes of the name: on a cluster with these Applications and
      no load balancer of what is left of the name, it reaps exactly such a secret. */
  lemma HitIsReaped(s: Store, c: NetShare.Cloud, name: string, net: string)
    requires name in s.secrets && HasSuffix(name, NET_SHARE) && c.now == s.now && c.apps.Keys == s.apps && Owner(name) !in c.lbs
    ensures NetShare.Visit(c, Owner(name), NetShare.Marker(net, s.secrets[name].born), NetShare.NoFault).1 == NetShare.Reaped <==> LooksOrphaned(s, name)
    ensures LooksOrphaned(s, name) ==> s.now - s.secrets[name].born >= 1800 && Owner(name) !in s.apps && name == Owner(name) + "-net-share"
  {
  }

  /** Finalizing it deletes the auth secret it would belong to, and then the secret itself. */
  function Finalized(hits: set<string>): set<string> {
    hits + set h | h in hits && HasSuffix(h, NET_SHARE) :: Owner(h) + "-auth"
  }

  ghost predicate CanHappen(s: Store, names: set<string>, e: Event) {
    match e
    case Call(wanted, puts, drops, stop) => IsCall(s.live, wanted, puts, drops) && NameSet(wanted) <= names && stop <= |Script(wanted, puts, drops)|
    case Wait(_) => true
    case Sweep(hits) => forall h :: h in hits ==> LooksOrphaned(s, h)
  }

  function Happen(db: string, s: Store, e: Event): Store {
    match e
    case Call(wanted, puts, drops, stop) =>
      var script := Script(wanted, puts, drops);
      ExecAll(db, s, if stop <= |script| then script[..stop] else script)
    case Wait(d) => s.(now := s.now + d)
    case Sweep(hits) => s.(secrets := s.secrets - Finalized(hits))
  }

  /** A history in which every call asks for users among `names` only. */
  ghost predicate IsHistory(db: string, s: Store, names: set<string>, events: seq<Event>)
    decreases |events|
  {
    events == [] || (CanHappen(s, names, events[0]) && IsHistory(db, Happen(db, s, events[0]), names, events[1..]))
  }

  function Ends(db: string, s: Store, events: seq<Event>): Store
    decreases |events|
  {
    if events == [] then s else Ends(db, Happen(db, s, events[0]), events[1..])
  }

  /** The secrets under the database's user prefix are passwords of users among `names`. */
  ghost predicate OnlyUsers(db: string, s: Store, names: set<string>) {
    forall n :: n in s.secrets && HasPrefix(n, db + "-u-") ==> exists u :: u in names && n == UserSecretName(db, u)
  }

  /** A database without users yet; no other database is called like one of its user secrets. */
  ghost predicate Fresh(db: string, s: Store) {
    && s.live == {}
    && (forall n :: n in s.secrets ==> !HasPrefix(n, db + "-u-"))
    && (forall id :: id in s.apps ==> !HasPrefix(id, db + "-u"))
  }

  predicate MarkerLike(u: string) {
    HasSuffix("_" + u, "_net_share")
  }

  // ----- sweeps and user names -----

  lemma UserPrefix(db: string, u: string)
    ensures HasPrefix(UserSecretName(db, u), db + "-u-")
  {
  }

  /** If a hit takes a user's secret with it, the hit is itself under the user prefix. */
  lemma HitUnderPrefix(db: string, u: string, h: string)
    requires HasSuffix(h, NET_SHARE) && (h == UserSecretName(db, u) || Owner(h) + "-auth" == UserSecretName(db, u))
    ensures HasPrefix(h, db + "-u-")
  {
    hide K8sName;
    var p, n := db + "-u-", UserSecretName(db, u);
    UserPrefix(db, u);
    if h != n {
      var b := Owner(h);
      assert h == b + NET_SHARE && n == b + "-auth";
      assert b == n[..|n| - 5];
      // the prefix ends in a hyphen and "auth" holds none, so the base reaches at least "-u"
      assert n[|p| - 1] == '-' && forall i :: 0 <= i < 5 ==> n[|b| + i] == "-auth"[i];
      assert forall i :: 1 <= i < 5 ==> "-auth"[i] != '-';
      assert |b| >= |p| - 1;
      assert b[..|p| - 1] == p[..|p| - 1];
      assert h[|p| - 1] == '-' && h[..|p| - 1] == p[..|p| - 1];
      assert p == p[..|p| - 1] + ['-'] && h[..|p|] == h[..|p| - 1] + [h[|p| - 1]];
    }
  }

  lemma SweepSpares(db: string, s: Store, names: set<string>, hits: set<string>, u: string)
    requires OnlyUsers(db, s, names) && AllValid(names) && forall w :: w in names ==> !MarkerLike(w)
    requires CanHappen(s, names, Sweep(hits))
    ensures UserSecretName(db, u) !in Finalized(hits)
  {
    var n := UserSecretName(db, u);
    if n in Finalized(hits) {
      var h :| h in hits && HasSuffix(h, NET_SHARE) && (h == n || Owner(h) + "-auth" == n);
      HitUnderPrefix(db, u, h);
      var w :| w in names && h == UserSecretName(db, w);
      UserSecretLooksLikeMarker(db, w);
      assert false;
    }
  }

  lemma {:induction false} PutsOnlyUsers(db: string, s: Store, names: set<string>, ms: seq<Micro>)
    requires OnlyUsers(db, s, names) && forall m :: m in ms && m.Put? ==> m.user in names
    ensures OnlyUsers(db, ExecAll(db, s, ms), names)
  {
    hide UserSecretName;
    if ms != [] {
      var front, m := ms[..|ms| - 1], ms[|ms| - 1];
      PutsOnlyUsers(db, s, names, front);
      assert m in ms;
      var y := ExecAll(db, s, front);
      forall n | n in Exec(db, y, m).secrets && HasPrefix(n, db + "-u-") ensures exists u :: u in names && n == UserSecretName(db, u) {
        if n !in y.secrets { assert m.Put? && m.user in names && n == UserSecretName(db, m.user); }
      }
    }
  }

  lemma EventKeeps(db: string, s: Store, names: set<string>, e: Event)
    requires Backed(db, s) && OnlyUsers(db, s, names) && AllValid(names) && (forall u :: u in names ==> !MarkerLike(u))
    requires CanHappen(s, names, e)
    ensures Backed(db, Happen(db, s, e)) && OnlyUsers(db, Happen(db, s, e), names)
  {
    hide UserSecretName, MarkerLike, ExecAll, ValidIdent;
    match e
    case Call(wanted, puts, drops, stop) =>
      CallKeeps(db, s, wanted, puts, drops, stop);
      var run := Script(wanted, puts, drops)[..stop];
      forall m | m in run && m.Put? ensures m.user in names {
        assert m in puts && m.user in NameSet(wanted);
      }
      PutsOnlyUsers(db, s, names, run);
    case Wait(_) =>
    case Sweep(hits) =>
      forall u | u in s.live ensures UserSecretName(db, u) !in Finalized(hits) { SweepSpares(db, s, names, hits, u); }
  }

  /** Over every history of calls, each stopping anywhere, and of sweeps, live users stay backed
      when no user in it is called like a marker. */
  lemma {:induction false} HistoryKeeps(db: string, s: Store, names: set<string>, events: seq<Event>)
    requires Backed(db, s) && OnlyUsers(db, s, names) && AllValid(names) && (forall u :: u in names ==> !MarkerLike(u))
    requires IsHistory(db, s, names, events)
    ensures Backed(db, Ends(db, s, events))
    decreases |events|
  {
    hide Backed, OnlyUsers, AllValid, CanHappen, Happen, MarkerLike;
    if events != [] {
      EventKeeps(db, s, names, events[0]);
      HistoryKeeps(db, Happen(db, s, events[0]), names, events[1..]);
    }
  }

  /** The three events by which a user called like a marker loses its password: it is created, its
      secret ages, and the sweep runs. */
  function Losing(db: string, u: string): seq<Event> {
    [Call([u], [Put(u, "")], [], 2), Wait(NetShare.GRACE), Sweep({UserSecretName(db, u)})]
  }

  lemma MarkerLikeLoses(db: string, s: Store, names: set<string>, u: string)
    requires Fresh(db, s) && u in names && ValidIdent(u) && MarkerLike(u)
    ensures IsHistory(db, s, names, Losing(db, u)) && !Backed(db, Ends(db, s, Losing(db, u)))
  {
    var n, h := UserSecretName(db, u), Losing(db, u);
    UserSecretLooksLikeMarker(db, u);
    MarkerLength(u);
    UserPrefix(db, u);
    assert n == (db + "-u") + ("-" + K8sName(u)) && |"-" + K8sName(u)| == |u| + 1;
    hide UserSecretName, K8sName, MarkerLike, ValidIdent;
    CutKeepsPrefix(db + "-u", "-" + K8sName(u));
    assert HasPrefix(Owner(n), db + "-u");
    var put, patch := Put(u, ""), Patch(NameSet([u]));
    assert u in [u] && NameSet([u]) == {u};
    var call := h[0];
    assert n !in s.secrets;
    assert CanHappen(s, names, call) by {
      assert put in call.puts;
      assert IsCall(s.live, call.wanted, call.puts, call.drops);
    }
    var s1 := Happen(db, s, call);
    assert s1 == Exec(db, Exec(db, s, put), patch) by {
      assert Script([u], [put], [])[..2] == [put, patch];
      assert [put, patch][..1] == [put] && [put][..0] == [];
      assert ExecAll(db, s, [put]) == Exec(db, ExecAll(db, s, []), put);
    }
    assert s1.secrets[n] == Secret("", s.now) && s1.live == {u};
    var s2 := Happen(db, s1, h[1]);
    assert LooksOrphaned(s2, n);
    var s3 := Happen(db, s2, h[2]);
    assert n !in s3.secrets && u in s3.live;
    Unrolled(db, s, names, h, s1, s2, s3);
  }

  lemma MarkerLength(u: string)
    requires MarkerLike(u)
    ensures |u| >= 9
  {
  }

  lemma CutKeepsPrefix(p: string, tail: string)
    requires |tail| >= |NET_SHARE|
    ensures HasPrefix((p + tail)[..|p + tail| - |NET_SHARE|], p)
  {
    assert |NET_SHARE| == 10;
    assert (p + tail)[..|p + tail| - 10][..|p|] == p;
  }

  lemma Unrolled(db: string, s: Store, names: set<string>, h: seq<Event>, s1: Store, s2: Store, s3: Store)
    requires |h| == 3 && CanHappen(s, names, h[0]) && s1 == Happen(db, s, h[0])
    requires CanHappen(s1, names, h[1]) && s2 == Happen(db, s1, h[1]) && CanHappen(s2, names, h[2]) && s3 == Happen(db, s2, h[2])
    ensures IsHistory(db, s, names, h) && Ends(db, s, h) == s3
  {
    hide CanHappen, Happen;
    var t, r := h[1..], h[2..];
    assert t[0] == h[1] && t[1..] == r && r[0] == h[2] && r[1..] == [];
    assert IsHistory(db, s3, names, []) && Ends(db, s3, []) == s3;
    assert IsHistory(db, s2, names, r) && Ends(db, s2, r) == s3;
    assert IsHistory(db, s1, names, t) && Ends(db, s1, t) == s3;
  }

  /** MAIN RESULT.  For a set of user names that the list check allows, every history of calls and
      sweeps on a new database keeps every live user's password secret if and only if none of
      the names is called like a marker. */
  lemma SweepsSpareExactly(db: string, s: Store, names: set<string>)
    requires Fresh(db, s) && AllValid(names)
    ensures (forall events :: IsHistory(db, s, names, events) ==> Backed(db, Ends(db, s, events)))
      <==> forall u :: u in names ==> !MarkerLike(u)
  {
    hide MarkerLike, IsHistory, Ends;
    if u :| u in names && MarkerLike(u) {
      MarkerLikeLoses(db, s, names, u);
      assert IsHistory(db, s, names, Losing(db, u));
    } else {
      assert OnlyUsers(db, s, names);
      forall events | IsHistory(db, s, names, events) ensures Backed(db, Ends(db, s, events)) {
        HistoryKeeps(db, s, names, events);
      }
    }
  }

  /** The sweep takes the user `auth` along with the user `net_share`. */
  lemma NeighbourLosesToo(db: string)
    ensures UserSecretName(db, "auth") in Finalized({UserSecretName(db, "net_share")})
  {
    MappedMarker();
    AuthIsPlain();
    hide K8sName;
    var n, long := UserSecretName(db, "net_share"), "_" + "net_share";
    assert K8sName(long) == "-" + K8sName("net_share");
    assert n == (db + "-u") + NET_SHARE;
    assert Owner(n) == db + "-u";
    assert db + "-u" + "-auth" == UserSecretName(db, "auth");
  }

  lemma AuthIsPlain()
    ensures K8sName("auth") == "auth"
  {
    hide K8sName;
    assert forall i :: 0 <= i < 4 ==> "auth"[i] != '_';
  }

  // ----- the call as it runs -----

  class AccessService {
    const db: string
    var secrets: map<string, Secret>
    var live: set<string>
    var apps: set<string>
    var now: int

    constructor (db: string, apps: set<string>, now: int)
      ensures this.db == db && View() == Store(map[], {}, apps, now)
    {
      this.db, secrets, live, this.apps, this.now := db, map[], {}, apps, now;
    }

    ghost function View(): Store
      reads this
    {
      Store(secrets, live, apps, now)
    }

    /** Secrets for the wanted users that are not live, until the writes run out. */
    method WriteSecrets(wanted: seq<string>, mint: string -> string, budget: nat)
      returns (done: bool, left: nat, ghost puts: seq<Micro>, ghost k: nat)
      modifies this`secrets
      ensures forall m :: m in puts ==> m.Put? && m.user in wanted && m.user !in live && m.password == mint(m.user)
      ensures forall u :: u in wanted && u !in live ==> exists m :: m in puts && m.user == u
      ensures k <= |puts| && View() == ExecAll(db, old(View()), puts[..k])
      ensures done ==> k == |puts| && left == budget - k && k <= |wanted|
      ensures !done ==> k == budget
      ensures budget >= |wanted| ==> done
    {
      hide UserSecretName;
      puts := [];
      left := budget;
      for i := 0 to |wanted|
        invariant forall m :: m in puts ==> m.Put? && m.user in wanted && m.user !in live && m.password == mint(m.user)
        invariant forall u :: u in wanted[..i] && u !in live ==> exists m :: m in puts && m.user == u
        invariant View() == ExecAll(db, old(View()), puts)
        invariant left + |puts| == budget && |puts| <= i
      {
        var u := wanted[i];
        assert wanted[..i + 1] == wanted[..i] + [u];
        if u in live { continue; }
        if left == 0 {
          k := |puts|;
          ghost var rest := Missing(wanted, live, mint);
          assert (puts + rest)[..k] == puts;
          puts := puts + rest;
          return false, left, puts, k;
        }
        left := left - 1;
        ghost var before := puts;
        secrets := secrets[UserSecretName(db, u) := Written(secrets, UserSecretName(db, u), mint(u), now)];
        puts := puts + [Put(u, mint(u))];
        assert puts[..|puts| - 1] == before;
        assert Put(u, mint(u)) in puts;
        assert forall m :: m in before ==> m in puts;
      }
      assert wanted[..|wanted|] == wanted;
      k := |puts|;
      assert puts[..k] == puts;
      done := true;
    }

    /** The secrets of users no longer wanted, in whatever order the map yields them. */
    method DeleteSecrets(existing: set<string>, wanted: seq<string>, undeleted: set<string>) returns (ghost drops: seq<Micro>)
      modifies this`secrets
      ensures forall m :: m in drops ==> m.Drop? && m.user in existing && m.user !in wanted && m.user !in undeleted
      ensures forall u :: u in existing && u !in wanted && u !in undeleted ==> exists m :: m in drops && m.user == u
      ensures View() == ExecAll(db, old(View()), drops)
    {
      drops := [];
      var rest := existing;
      while rest != {}
        invariant rest <= existing
        invariant forall m :: m in drops ==> m.Drop? && m.user in existing && m.user !in wanted && m.user !in undeleted
        invariant forall u :: u in existing && u !in rest && u !in wanted && u !in undeleted ==> exists m :: m in drops && m.user == u
        invariant View() == ExecAll(db, old(View()), drops)
        decreases |rest|
      {
        var u :| u in rest;
        rest := rest - {u};
        if u !in wanted && u !in undeleted {
          secrets := secrets - {UserSecretName(db, u)};
          ghost var before := drops;
          drops := drops + [Drop(u)];
          assert drops[..|drops| - 1] == before;
          assert Drop(u) in drops;
          assert forall m :: m in before ==> m in drops;
        }
      }
    }

    /** `SetAccess` for a validated list.  `budget` is how many remote writes succeed before the
        first failure; `undeleted` are the users whose secret cannot be deleted.  The store ends
        exactly where some prefix of the call's script leaves it. */
    method SetAccess(wanted: seq<string>, mint: string -> string, budget: nat, undeleted: set<string>)
      returns (ok: bool, ghost puts: seq<Micro>, ghost drops: seq<Micro>, ghost k: nat)
      modifies this
      ensures IsCall(old(live), wanted, puts, drops)
      ensures k <= |Script(wanted, puts, drops)| && View() == ExecAll(db, old(View()), Script(wanted, puts, drops)[..k])
      ensures ok <==> |puts| < budget
      ensures ok ==> k == |Script(wanted, puts, drops)| && live == NameSet(wanted)
      ensures !ok ==> k == budget && live == old(live)
      ensures budget > |wanted| ==> ok
      ensures forall m :: m in puts ==> m.password == mint(m.user)
      ensures forall m :: m in drops ==> m.user !in undeleted
      ensures ok ==> forall u :: u in old(live) && u !in wanted && u !in undeleted ==> exists m :: m in drops && m.user == u
      ensures ok && AllValid(NameSet(wanted)) && AllValid(old(live)) ==> SecretsFollow(db, old(View()), View(), wanted, mint, undeleted)
    {
      hide Exec, UserSecretName, AllValid, SecretsFollow;
      var existing := live;
      drops := [];
      var done, left;
      done, left, puts, k := WriteSecrets(wanted, mint, budget);
      assert IsCall(existing, wanted, puts, []);
      assert Script(wanted, puts, [])[..k] == puts[..k];
      if !done || left == 0 { return false, puts, drops, k; }
      assert puts[..k] == puts;
      ghost var before := View();
      live := NameSet(wanted);
      assert View() == Exec(db, before, Patch(NameSet(wanted))) by { PatchIs(db, before, NameSet(wanted)); }
      drops := DeleteSecrets(existing, wanted, undeleted);
      k := |Script(wanted, puts, drops)|;
      FinishedPuts(db, old(View()), wanted, puts, drops, k);
      assert drops[..k - |puts| - 1] == drops;
      assert Script(wanted, puts, drops)[..k] == Script(wanted, puts, drops);
      CallLeaves(db, old(View()), View(), wanted, puts, drops, mint, undeleted);
      ok := true;
    }
  }

  lemma PatchIs(db: string, s: Store, users: set<string>)
    ensures Exec(db, s, Patch(users)) == s.(live := users)
  {
  }

  /** The writes a call would still have made. */
  lemma Missing(wanted: seq<string>, existing: set<string>, mint: string -> string) returns (rest: seq<Micro>)
    ensures forall m :: m in rest ==> m.Put? && m.user in wanted && m.user !in existing && m.password == mint(m.user)
    ensures forall u :: u in wanted && u !in existing ==> exists m :: m in rest && m.user == u
  {
    rest := [];
    for i := 0 to |wanted|
      invariant forall m :: m in rest ==> m.Put? && m.user in wanted && m.user !in existing && m.password == mint(m.user)
      invariant forall u :: u in wanted[..i] && u !in existing ==> exists m :: m in rest && m.user == u
    {
      assert wanted[..i + 1] == wanted[..i] + [wanted[i]];
      if wanted[i] !in existing {
        var before := rest;
        rest := rest + [Put(wanted[i], mint(wanted[i]))];
        assert Put(wanted[i], mint(wanted[i])) in rest;
        assert forall m :: m in before ==> m in rest;
      }
    }
    assert wanted[..|wanted|] == wanted;
  }
}
