/** The policy document over whole runs: it refines a record of the website flag, the public
    flag, the grants and the customer's own statements. */
module PolicyRuns {
  import opened Base
  import opened Policy

  datatype Record = Record(website: bool, public: bool, grants: map<string, Permission>, customer: seq<Stmt>)

  /** The users with a grant are plain (see `PlainUid`). */
  predicate PlainGrants(r: Record) {
    forall u :: u in r.grants ==> PlainUid(u)
  }

  /** What the record says should be stored under a Stratos Sid. */
  function Expected(bucket: string, r: Record, sid: string): Option<Stmt> {
    if sid == WEBSITE then (if r.website then Some(AnonymousRead(bucket, WEBSITE)) else None)
    else if sid == PUBLIC then (if r.public then Some(AnonymousRead(bucket, PUBLIC)) else None)
    else if !IsGrantSid(sid) then None
    else ExpectedGrant(bucket, r.grants, sid[|GRANT|..])
  }

  /** Under `StratosGrant-<name>`: a user's bucket statement, or its object twin. */
  function ExpectedGrant(bucket: string, grants: map<string, Permission>, name: string): Option<Stmt> {
    if name in grants then Some(BucketStmt(bucket, name, grants[name]))
    else if HasSuffix(name, OBJECTS) && name[..|name| - |OBJECTS|] in grants then
      var u := name[..|name| - |OBJECTS|];
      Some(ObjectStmt(bucket, u, grants[u]))
    else None
  }

  /** The document holds the customer's statements verbatim and in order, each Stratos Sid at
      most once, and under each Stratos Sid exactly what the record says. */
  ghost predicate Refines(bucket: string, stmts: seq<Stmt>, r: Record) {
    && Owned(stmts, false) == r.customer
    && OncePerSid(stmts)
    && (forall sid :: IsStratos(sid) ==> Find(stmts, sid) == Expected(bucket, r, sid))
  }

  lemma ExpectedOfUser(bucket: string, r: Record, u: string)
    requires PlainGrants(r) && PlainUid(u)
    ensures Expected(bucket, r, GrantSid(u)) == if u in r.grants then Some(BucketStmt(bucket, u, r.grants[u])) else None
    ensures Expected(bucket, r, ObjectSid(u)) == if u in r.grants then Some(ObjectStmt(bucket, u, r.grants[u])) else None
  {
    hide GrantSid, IsGrantSid, BucketStmt, ObjectStmt;
    Prefixes(u);
    var v := u + OBJECTS;
    assert ObjectSid(u) == GrantSid(v) by { TwinSid(u); }
    Prefixes(v);
    assert v[|u|..] == OBJECTS && v[..|u|] == u && |v| - |OBJECTS| == |u|;
  }

  lemma TwinSid(u: string)
    ensures ObjectSid(u) == GrantSid(u + OBJECTS)
  {
    assert GRANT + u + OBJECTS == GRANT + (u + OBJECTS);
  }

  lemma Prefixes(u: string)
    ensures IsGrantSid(GrantSid(u)) && GrantSid(u)[|GRANT|..] == u && GrantSid(u) != WEBSITE && GrantSid(u) != PUBLIC
  {
    assert GrantSid(u)[7] == GRANT[7] == 'G' && WEBSITE[7] == 'P' && PUBLIC[7] == 'P';
  }

  lemma FlagSids()
    ensures WEBSITE != PUBLIC && !IsGrantSid(WEBSITE) && !IsGrantSid(PUBLIC)
  {
    assert |WEBSITE| != |PUBLIC|;
    assert WEBSITE[7] == 'P' && PUBLIC[7] == 'P' && GRANT[7] == 'G';
    assert WEBSITE[..|GRANT|][7] == 'P' && PUBLIC[..|GRANT|][7] == 'P';
  }

  // ----- operations -----

  datatype Op =
    | Website(on: bool)
    | Public(on: bool)
    | Grant(uid: string, p: Permission)
    | Revoke(uid: string)
    | Replace(input: seq<Stmt>)

  predicate Plain(op: Op) {
    op.Grant? || op.Revoke? ==> PlainUid(op.uid)
  }

  /** What the operation writes back. */
  function Edit(bucket: string, stmts: seq<Stmt>, op: Op): seq<Stmt> {
    match op
    case Website(on) => if on then Upsert(stmts, AnonymousRead(bucket, WEBSITE)) else Remove(stmts, WEBSITE)
    case Public(on) => if on then Upsert(stmts, AnonymousRead(bucket, PUBLIC)) else Remove(stmts, PUBLIC)
    case Grant(u, p) => Upsert(Upsert(stmts, BucketStmt(bucket, u, p)), ObjectStmt(bucket, u, p))
    case Revoke(u) => Remove(Remove(stmts, GrantSid(u)), ObjectSid(u))
    case Replace(input) => Owned(input, false) + Owned(stmts, true)
  }

  /** What the operation means. */
  function Perform(r: Record, op: Op): Record {
    match op
    case Website(on) => r.(website := on)
    case Public(on) => r.(public := on)
    case Grant(u, p) => r.(grants := r.grants[u := p])
    case Revoke(u) => r.(grants := r.grants - {u})
    case Replace(input) => r.(customer := Owned(input, false))
  }

  /** A flag: one statement upserted or removed. */
  lemma FlagRefines(bucket: string, stmts: seq<Stmt>, r: Record, op: Op)
    requires Refines(bucket, stmts, r) && (op.Website? || op.Public?)
    ensures Refines(bucket, Edit(bucket, stmts, op), Perform(r, op))
  {
    hide Upsert, Remove, Find, Owned, IsGrantSid, OncePerSid;
    FlagSids();
    var flag := if op.Website? then WEBSITE else PUBLIC;
    forall sid | IsStratos(sid) ensures Find(Edit(bucket, stmts, op), sid) == Expected(bucket, Perform(r, op), sid) {
      UpsertEffect(stmts, AnonymousRead(bucket, flag), sid);
      RemoveEffect(stmts, flag, sid);
    }
    UpsertEffect(stmts, AnonymousRead(bucket, flag), flag);
    RemoveEffect(stmts, flag, flag);
  }

  lemma ExpectedElsewhere(bucket: string, r: Record, r': Record, u: string, sid: string)
    requires PlainGrants(r) && PlainGrants(r') && PlainUid(u) && r' == r.(grants := r'.grants)
    requires forall v :: v != u ==> (v in r.grants <==> v in r'.grants) && (v in r.grants ==> r.grants[v] == r'.grants[v])
    requires sid != GrantSid(u) && sid != ObjectSid(u)
    ensures Expected(bucket, r', sid) == Expected(bucket, r, sid)
  {
    hide BucketStmt, ObjectStmt, AnonymousRead, PlainUid, ExpectedGrant;
    if IsGrantSid(sid) {
      var v := sid[|GRANT|..];
      assert sid == GrantSid(v);
      assert v != u && v != u + OBJECTS by { TwinSid(u); }
      GrantElsewhere(bucket, r.grants, r'.grants, u, v);
    }
  }

  lemma GrantElsewhere(bucket: string, g: map<string, Permission>, g': map<string, Permission>, u: string, v: string)
    requires forall x :: x != u ==> (x in g <==> x in g') && (x in g ==> g[x] == g'[x])
    requires v != u && v != u + OBJECTS
    ensures ExpectedGrant(bucket, g', v) == ExpectedGrant(bucket, g, v)
  {
    hide BucketStmt, ObjectStmt;
    if HasSuffix(v, OBJECTS) {
      assert v == v[..|v| - |OBJECTS|] + OBJECTS;
    }
  }

  lemma GrantRefines(bucket: string, stmts: seq<Stmt>, r: Record, u: string, p: Permission)
    requires Refines(bucket, stmts, r) && PlainGrants(r) && PlainUid(u)
    ensures Refines(bucket, Edit(bucket, stmts, Grant(u, p)), Perform(r, Grant(u, p)))
  {
    hide Upsert, Find, Owned, Expected, IsGrantSid, OncePerSid;
    Prefixes(u);
    Prefixes(u + OBJECTS);
    TwinSid(u);
    assert GrantSid(u) != ObjectSid(u);
    var r', mid := Perform(r, Grant(u, p)), Upsert(stmts, BucketStmt(bucket, u, p));
    forall sid | IsStratos(sid) ensures Find(Upsert(mid, ObjectStmt(bucket, u, p)), sid) == Expected(bucket, r', sid) {
      UpsertEffect(stmts, BucketStmt(bucket, u, p), sid);
      UpsertEffect(mid, ObjectStmt(bucket, u, p), sid);
      if sid == GrantSid(u) || sid == ObjectSid(u) {
        ExpectedOfUser(bucket, r', u);
      } else {
        ExpectedElsewhere(bucket, r, r', u, sid);
      }
    }
    UpsertEffect(stmts, BucketStmt(bucket, u, p), GrantSid(u));
    UpsertEffect(mid, ObjectStmt(bucket, u, p), GrantSid(u));
  }

  lemma RevokeRefines(bucket: string, stmts: seq<Stmt>, r: Record, u: string)
    requires Refines(bucket, stmts, r) && PlainGrants(r) && PlainUid(u)
    ensures Refines(bucket, Edit(bucket, stmts, Revoke(u)), Perform(r, Revoke(u)))
  {
    hide Remove, Find, Owned, Expected, IsGrantSid, OncePerSid;
    Prefixes(u);
    Prefixes(u + OBJECTS);
    TwinSid(u);
    var r', mid := Perform(r, Revoke(u)), Remove(stmts, GrantSid(u));
    RemoveEffect(stmts, GrantSid(u), GrantSid(u));
    RemoveEffect(mid, ObjectSid(u), GrantSid(u));
    forall sid | IsStratos(sid) ensures Find(Remove(mid, ObjectSid(u)), sid) == Expected(bucket, r', sid) {
      RemoveEffect(stmts, GrantSid(u), sid);
      RemoveEffect(mid, ObjectSid(u), sid);
      if sid == GrantSid(u) || sid == ObjectSid(u) {
        ExpectedOfUser(bucket, r', u);
      } else {
        ExpectedElsewhere(bucket, r, r', u, sid);
      }
    }
  }

  lemma ReplaceRefines(bucket: string, stmts: seq<Stmt>, r: Record, input: seq<Stmt>)
    requires Refines(bucket, stmts, r)
    ensures Refines(bucket, Edit(bucket, stmts, Replace(input)), Perform(r, Replace(input)))
  {
    hide Find, Owned, Expected, IsStratos, OncePerSid;
    var theirs, ours := Owned(input, false), Owned(stmts, true);
    OwnedAppend(theirs, ours, false);
    OwnedTwice(input, false, false);
    OwnedTwice(stmts, true, false);
    OwnedSids(input, false);
    assert IsStratos(WEBSITE) by { WebsiteIsStratos(); }
    FindOwned(stmts, WEBSITE);
    FindBehind(theirs, ours, WEBSITE);
    forall sid | IsStratos(sid) ensures Find(theirs + ours, sid) == Expected(bucket, r.(customer := theirs), sid) {
      FindOwned(stmts, sid);
      FindBehind(theirs, ours, sid);
      ExpectedIgnoresCustomer(bucket, r, theirs, sid);
    }
  }

  lemma WebsiteIsStratos()
    ensures IsStratos(WEBSITE)
  {
  }

  lemma ExpectedIgnoresCustomer(bucket: string, r: Record, customer: seq<Stmt>, sid: string)
    ensures Expected(bucket, r.(customer := customer), sid) == Expected(bucket, r, sid)
  {
  }

  /** Every operation on the document is the operation on the record. */
  lemma StepRefines(bucket: string, stmts: seq<Stmt>, r: Record, op: Op)
    requires Refines(bucket, stmts, r) && PlainGrants(r) && Plain(op)
    ensures Refines(bucket, Edit(bucket, stmts, op), Perform(r, op)) && PlainGrants(Perform(r, op))
  {
    hide Refines, Edit;
    match op
    case Website(_) => FlagRefines(bucket, stmts, r, op);
    case Public(_) => FlagRefines(bucket, stmts, r, op);
    case Grant(u, p) => GrantRefines(bucket, stmts, r, u, p);
    case Revoke(u) => RevokeRefines(bucket, stmts, r, u);
    case Replace(input) => ReplaceRefines(bucket, stmts, r, input);
  }

  // ----- runs -----

  /** An operation and whether the document was written: when a remote read or write fails the
      stored document is left as it was. */
  datatype Event = Event(op: Op, written: bool)

  function EditAll(bucket: string, stmts: seq<Stmt>, run: seq<Event>): seq<Stmt>
    decreases |run|
  {
    if run == [] then stmts
    else EditAll(bucket, if run[0].written then Edit(bucket, stmts, run[0].op) else stmts, run[1..])
  }

  function PerformAll(r: Record, run: seq<Event>): Record
    decreases |run|
  {
    if run == [] then r else PerformAll(if run[0].written then Perform(r, run[0].op) else r, run[1..])
  }

  lemma {:induction false} RunRefines(bucket: string, stmts: seq<Stmt>, r: Record, run: seq<Event>)
    requires Refines(bucket, stmts, r) && PlainGrants(r) && forall i :: 0 <= i < |run| ==> Plain(run[i].op)
    ensures Refines(bucket, EditAll(bucket, stmts, run), PerformAll(r, run)) && PlainGrants(PerformAll(r, run))
    decreases |run|
  {
    hide Refines, Edit, Perform, PlainGrants;
    if run != [] {
      if run[0].written {
        StepRefines(bucket, stmts, r, run[0].op);
        RunRefines(bucket, Edit(bucket, stmts, run[0].op), Perform(r, run[0].op), run[1..]);
      } else {
        RunRefines(bucket, stmts, r, run[1..]);
      }
    }
  }

  /** A bucket whose document holds only customer statements. */
  predicate Untouched(stmts: seq<Stmt>) {
    forall i :: 0 <= i < |stmts| ==> !IsStratos(stmts[i].sid)
  }

  function Before(stmts: seq<Stmt>): Record {
    Record(false, false, map[], stmts)
  }

  lemma {:induction false} UntouchedRefines(bucket: string, stmts: seq<Stmt>)
    requires Untouched(stmts)
    ensures Refines(bucket, stmts, Before(stmts))
  {
    hide IsStratos;
    if stmts != [] {
      UntouchedRefines(bucket, stmts[1..]);
      assert Refines(bucket, stmts[1..], Before(stmts[1..]));
      forall sid | IsStratos(sid) ensures Find(stmts, sid) == Expected(bucket, Before(stmts), sid) {
        assert Find(stmts[1..], sid) == Expected(bucket, Before(stmts[1..]), sid);
      }
      assert stmts == [stmts[0]] + stmts[1..];
    }
  }

  /** MAIN RESULT.  From a document of customer statements, over every run of website on and
      off, public on and off, grants, revokes and custom-policy replacements, at any failure,
      the document refines the record: the customer's statements verbatim and in order, each
      Stratos Sid at most once, and under it exactly what the record calls for. */
  lemma DocumentRefinesRecord(bucket: string, stmts: seq<Stmt>, run: seq<Event>)
    requires Untouched(stmts) && forall i :: 0 <= i < |run| ==> Plain(run[i].op)
    ensures Refines(bucket, EditAll(bucket, stmts, run), PerformAll(Before(stmts), run))
  {
    UntouchedRefines(bucket, stmts);
    RunRefines(bucket, stmts, Before(stmts), run);
  }

  // ----- who can read -----

  /** Which statements apply to an anonymous read of the bucket's objects is left open: wildcards,
      conditions and exceptions decide it.  The statement Stratos writes for the purpose does, and
      those it writes for a named user do not. */
  ghost predicate Sound(bucket: string, applies: Stmt -> bool) {
    && (forall sid :: applies(AnonymousRead(bucket, sid)))
    && (forall u, p :: !applies(BucketStmt(bucket, u, p)) && !applies(ObjectStmt(bucket, u, p)))
  }

  ghost predicate Applies(stmts: seq<Stmt>, applies: Stmt -> bool, allow: bool) {
    exists s :: s in stmts && s.allow == allow && applies(s)
  }

  /** Policy evaluation: some statement allows it and none denies it. */
  ghost predicate Allowed(stmts: seq<Stmt>, applies: Stmt -> bool) {
    Applies(stmts, applies, true) && !Applies(stmts, applies, false)
  }

  /** However statements are matched, objects are anonymously readable exactly when the website or
      the public flag is on or a statement of the customer's allows it, and none of the customer's
      denies it. */
  lemma ReadableExactly(bucket: string, stmts: seq<Stmt>, r: Record, applies: Stmt -> bool)
    requires Refines(bucket, stmts, r) && PlainGrants(r) && Sound(bucket, applies)
    ensures Allowed(stmts, applies) <==>
      (r.website || r.public || Applies(r.customer, applies, true)) && !Applies(r.customer, applies, false)
  {
    hide Refines, Sound;
    OursApply(bucket, stmts, r, applies, true);
    OursApply(bucket, stmts, r, applies, false);
  }

  lemma OursApply(bucket: string, stmts: seq<Stmt>, r: Record, applies: Stmt -> bool, allow: bool)
    requires Refines(bucket, stmts, r) && PlainGrants(r) && Sound(bucket, applies)
    ensures Applies(stmts, applies, allow) <==> Applies(r.customer, applies, allow) || (allow && (r.website || r.public))
  {
    hide Expected;
    OwnedSids(stmts, false);
    if Applies(stmts, applies, allow) {
      var s :| s in stmts && s.allow == allow && applies(s);
      if IsStratos(s.sid) {
        var i :| 0 <= i < |stmts| && stmts[i] == s;
        FindUnique(stmts, i);
        ExpectedApplies(bucket, r, s.sid, applies);
      } else {
        assert s in r.customer;
      }
    }
    if allow && (r.website || r.public) {
      var sid := if r.website then WEBSITE else PUBLIC;
      FlagSids();
      assert Find(stmts, sid) == Expected(bucket, r, sid);
      ExpectedApplies(bucket, r, sid, applies);
      FindMeans(stmts, sid);
      assert Find(stmts, sid).value in stmts && applies(Find(stmts, sid).value);
    }
    if Applies(r.customer, applies, allow) {
      var s :| s in r.customer && s.allow == allow && applies(s);
      assert s in stmts;
    }
  }

  lemma ExpectedApplies(bucket: string, r: Record, sid: string, applies: Stmt -> bool)
    requires Sound(bucket, applies)
    ensures Expected(bucket, r, sid).Some? ==> Expected(bucket, r, sid).value.allow
    ensures Expected(bucket, r, sid).Some? && applies(Expected(bucket, r, sid).value) <==>
              (sid == WEBSITE && r.website) || (sid == PUBLIC && r.public)
  {
    FlagSids();
  }

  /** `hasAnonymousReadStmt` answers whether one of the two flags is on. */
  method HasAnonymousRead(stmts: seq<Stmt>, ghost bucket: string, ghost r: Record) returns (b: bool)
    requires Refines(bucket, stmts, r)
    ensures b <==> r.website || r.public
  {
    FlagSids();
    assert Find(stmts, WEBSITE).Some? == r.website && Find(stmts, PUBLIC).Some? == r.public;
    FindMeans(stmts, WEBSITE);
    FindMeans(stmts, PUBLIC);
    for i := 0 to |stmts|
      invariant forall k :: 0 <= k < i ==> stmts[k].sid != PUBLIC && stmts[k].sid != WEBSITE
    {
      if stmts[i].sid == PUBLIC || stmts[i].sid == WEBSITE { return true; }
    }
    b := false;
  }

  // ----- grants read back -----

  datatype BucketGrant = BucketGrant(uid: string, p: Permission)

  predicate IsListed(s: Stmt) {
    IsGrantSid(s.sid) && !HasSuffix(s.sid, OBJECTS)
  }

  function GrantOf(s: Stmt): BucketGrant
    requires IsListed(s)
  {
    BucketGrant(s.sid[|GRANT|..], PermissionOf(s.actions))
  }

  function Listed(stmts: seq<Stmt>): seq<BucketGrant> {
    if stmts == [] then []
    else Listed(stmts[..|stmts| - 1]) + if IsListed(stmts[|stmts| - 1]) then [GrantOf(stmts[|stmts| - 1])] else []
  }

  /** `ListBucketGrants`. */
  method ListBucketGrants(stmts: seq<Stmt>) returns (out: seq<BucketGrant>)
    ensures out == Listed(stmts)
  {
    out := [];
    for i := 0 to |stmts|
      invariant out == Listed(stmts[..i])
    {
      assert stmts[..i + 1][..i] == stmts[..i];
      var s := stmts[i];
      if !HasPrefix(s.sid, GRANT) || HasSuffix(s.sid, OBJECTS) { continue; }
      out := out + [BucketGrant(s.sid[|GRANT|..], PermissionOf(s.actions))];
    }
    assert stmts[..|stmts|] == stmts;
  }

  lemma {:induction false} ListedMembers(stmts: seq<Stmt>, g: BucketGrant)
    ensures g in Listed(stmts) <==> exists s :: s in stmts && IsListed(s) && GrantOf(s) == g
  {
    if stmts != [] {
      var front, last := stmts[..|stmts| - 1], stmts[|stmts| - 1];
      assert stmts == front + [last];
      ListedMembers(front, g);
    }
  }

  lemma {:induction false} ListedOnce(stmts: seq<Stmt>)
    requires OncePerSid(stmts)
    ensures forall i, j :: 0 <= i < j < |Listed(stmts)| ==> Listed(stmts)[i].uid != Listed(stmts)[j].uid
  {
    hide IsListed, GrantOf, IsStratos;
    if stmts != [] {
      var front, last := stmts[..|stmts| - 1], stmts[|stmts| - 1];
      assert forall i :: 0 <= i < |front| ==> front[i] == stmts[i];
      ListedOnce(front);
      if IsListed(last) {
        forall i | 0 <= i < |Listed(front)| ensures Listed(front)[i].uid != GrantOf(last).uid {
          ListedMembers(front, Listed(front)[i]);
          var s :| s in front && IsListed(s) && GrantOf(s) == Listed(front)[i];
          SameUidSameSid(s, last);
        }
      }
    }
  }

  lemma SameUidSameSid(s: Stmt, t: Stmt)
    requires IsListed(s) && IsListed(t)
    ensures GrantOf(s).uid == GrantOf(t).uid ==> s.sid == t.sid
    ensures IsStratos(s.sid)
  {
    assert s.sid == GRANT + s.sid[|GRANT|..] && t.sid == GRANT + t.sid[|GRANT|..];
  }

  /** MAIN RESULT.  The listing holds exactly the granted users, each once, with its level. */
  lemma ListingIsExact(bucket: string, stmts: seq<Stmt>, r: Record)
    requires Refines(bucket, stmts, r) && PlainGrants(r)
    ensures forall u, p :: BucketGrant(u, p) in Listed(stmts) <==> u in r.grants && r.grants[u] == p
    ensures forall i, j :: 0 <= i < j < |Listed(stmts)| ==> Listed(stmts)[i].uid != Listed(stmts)[j].uid
  {
    hide Expected, Listed, PermissionOf, OncePerSid;
    ListedOnce(stmts);
    forall u, p ensures BucketGrant(u, p) in Listed(stmts) <==> u in r.grants && r.grants[u] == p {
      ListedMembers(stmts, BucketGrant(u, p));
      if u in r.grants && r.grants[u] == p {
        UserIsListed(bucket, stmts, r, u);
      }
      if BucketGrant(u, p) in Listed(stmts) {
        var s :| s in stmts && IsListed(s) && GrantOf(s) == BucketGrant(u, p);
        ListedIsGranted(bucket, stmts, r, s);
      }
    }
  }

  lemma UserIsListed(bucket: string, stmts: seq<Stmt>, r: Record, u: string)
    requires Refines(bucket, stmts, r) && PlainGrants(r) && u in r.grants
    ensures exists s :: s in stmts && IsListed(s) && GrantOf(s) == BucketGrant(u, r.grants[u])
  {
    hide Expected, PermissionOf, OncePerSid;
    ExpectedOfUser(bucket, r, u);
    ListedSids(u);
    assert Find(stmts, GrantSid(u)) == Some(BucketStmt(bucket, u, r.grants[u]));
    FindMeans(stmts, GrantSid(u));
    PermissionRoundTrip(r.grants[u]);
    var s := BucketStmt(bucket, u, r.grants[u]);
    assert s in stmts && IsListed(s) && GrantOf(s) == BucketGrant(u, r.grants[u]);
  }

  lemma ListedIsGranted(bucket: string, stmts: seq<Stmt>, r: Record, s: Stmt)
    requires Refines(bucket, stmts, r) && PlainGrants(r) && s in stmts && IsListed(s)
    ensures GrantOf(s).uid in r.grants && r.grants[GrantOf(s).uid] == GrantOf(s).p
  {
    hide Expected, PermissionOf, OncePerSid;
    var u := s.sid[|GRANT|..];
    assert s.sid == GrantSid(u);
    var i :| 0 <= i < |stmts| && stmts[i] == s;
    FindUnique(stmts, i);
    ListedSids(u);
    ExpectedOfUser(bucket, r, u);
    PermissionRoundTrip(r.grants[u]);
  }

  /** The level last granted to a user and not revoked since, in a run. */
  function LastGranted(run: seq<Event>, u: string): Option<Permission> {
    if run == [] then None
    else
      var e := run[|run| - 1];
      if e.written && e.op.Grant? && e.op.uid == u then Some(e.op.p)
      else if e.written && e.op.Revoke? && e.op.uid == u then None
      else LastGranted(run[..|run| - 1], u)
  }

  lemma {:induction false} PerformSnoc(r: Record, run: seq<Event>, e: Event)
    ensures PerformAll(r, run + [e]) == if e.written then Perform(PerformAll(r, run), e.op) else PerformAll(r, run)
    decreases |run|
  {
    hide Perform;
    if run == [] {
      assert run + [e] == [e] && [e][1..] == [];
    } else {
      assert (run + [e])[1..] == run[1..] + [e];
      PerformSnoc(if run[0].written then Perform(r, run[0].op) else r, run[1..], e);
    }
  }

  lemma {:induction false} GrantsOfRun(stmts: seq<Stmt>, run: seq<Event>, u: string)
    ensures var g := PerformAll(Before(stmts), run).grants;
      LastGranted(run, u) == if u in g then Some(g[u]) else None
    decreases |run|
  {
    if run != [] {
      var front, last := run[..|run| - 1], run[|run| - 1];
      assert run == front + [last];
      PerformSnoc(Before(stmts), front, last);
      GrantsOfRun(stmts, front, u);
    }
  }

  /** After any run, `ListBucketGrants` returns exactly the last-granted level of each user
      that was not revoked since. */
  lemma ListingAfterRun(bucket: string, stmts: seq<Stmt>, run: seq<Event>, u: string, p: Permission)
    requires Untouched(stmts) && forall i :: 0 <= i < |run| ==> Plain(run[i].op)
    ensures BucketGrant(u, p) in Listed(EditAll(bucket, stmts, run)) <==> LastGranted(run, u) == Some(p)
  {
    hide Refines, EditAll, PerformAll, Listed, LastGranted;
    UntouchedRefines(bucket, stmts);
    RunRefines(bucket, stmts, Before(stmts), run);
    ListingIsExact(bucket, EditAll(bucket, stmts, run), PerformAll(Before(stmts), run));
    GrantsOfRun(stmts, run, u);
  }

  /** Without plain users the listing is wrong: a grant to a user named `x-Objects` overwrites
      the object statement of `x`. */
  lemma SuffixedUserOverwrites(bucket: string, x: string, p: Permission, q: Permission)
    ensures var stmts := Edit(bucket, Edit(bucket, [], Grant(x, p)), Grant(x + OBJECTS, q));
      Find(stmts, ObjectSid(x)) == Some(BucketStmt(bucket, x + OBJECTS, q)) && ObjectStmt(bucket, x, p) !in stmts
  {
    hide Upsert, Find, IsStratos, OncePerSid;
    var y := x + OBJECTS;
    var s0, s1, t0, t1 := BucketStmt(bucket, x, p), ObjectStmt(bucket, x, p), BucketStmt(bucket, y, q), ObjectStmt(bucket, y, q);
    SuffixCancels(x, y);
    SuffixCancels(y, x);
    assert s1.sid == t0.sid && t1.sid != s1.sid && s0.sid != s1.sid;
    assert IsStratos(s0.sid) && IsStratos(s1.sid) && IsStratos(t1.sid) by { StratosGrants(x); StratosGrants(y); }
    assert OncePerSid([]) by { NoneTwice(); }
    var a := Upsert([], s0);
    UpsertEffect([], s0, s1.sid);
    var b := Upsert(a, s1);
    UpsertEffect(a, s1, s1.sid);
    var c := Upsert(b, t0);
    UpsertEffect(b, t0, s1.sid);
    var d := Upsert(c, t1);
    UpsertEffect(c, t1, s1.sid);
    assert Find(d, s1.sid) == Some(t0);
    if s1 in d {
      var i :| 0 <= i < |d| && d[i] == s1;
      FindUnique(d, i);
      assert false;
    }
  }

  lemma NoneTwice()
    ensures OncePerSid([])
  {
  }

  lemma StratosGrants(u: string)
    ensures IsStratos(GrantSid(u)) && IsStratos(ObjectSid(u))
  {
    Prefixes(u);
    Prefixes(u + OBJECTS);
    TwinSid(u);
  }
}
