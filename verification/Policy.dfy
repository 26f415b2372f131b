/** One bucket, one policy document, several writers: the website toggle, the public toggle,
    per-key grants and the customer all edit it by read-modify-write keyed on `Sid`.  The
    document refines a plain record of who asked for what. */
module Policy {
  import opened Base

  // ----- statements -----

  datatype Principal = Anyone | Users(uids: seq<string>) | OtherPrincipal(raw: string)

  /** A statement as it is stored; `rest` stands for the fields Stratos does not model. */
  datatype Stmt = Stmt(sid: string, allow: bool, principal: Principal, actions: seq<string>, resource: string, rest: string)

  datatype PolicyDoc = PolicyDoc(version: string, id: string, stmts: seq<Stmt>)

  const WEBSITE: string := "StratosPublicWebsiteRead"
  const PUBLIC: string := "StratosPublicRead"
  const GRANT: string := "StratosGrant-"
  const OBJECTS: string := "-Objects"
  const VERSION: string := "2012-10-17"

  predicate IsGrantSid(sid: string) {
    HasPrefix(sid, GRANT)
  }

  predicate IsStratos(sid: string) {
    sid == WEBSITE || sid == PUBLIC || IsGrantSid(sid)
  }

  /** The Sids Stratos owns, written out; a statement under any other is the customer's. */
  lemma OwnSids(sid: string, uid: string)
    ensures IsStratos(sid) <==> sid == "StratosPublicWebsiteRead" || sid == "StratosPublicRead" || HasPrefix(sid, "StratosGrant-")
    ensures GrantSid(uid) == "StratosGrant-" + uid && ObjectSid(uid) == "StratosGrant-" + uid + "-Objects"
  {
  }

  function GrantSid(uid: string): string {
    GRANT + uid
  }

  function ObjectSid(uid: string): string {
    GrantSid(uid) + OBJECTS
  }

  datatype Permission = Read | ReadWrite | Full

  function BucketActions(p: Permission): seq<string> {
    match p
    case Read => ["s3:ListBucket", "s3:GetBucketLocation"]
    case ReadWrite => ["s3:ListBucket", "s3:GetBucketLocation", "s3:ListBucketMultipartUploads"]
    case Full => ["s3:*"]
  }

  function ObjectActions(p: Permission): seq<string> {
    match p
    case Read => ["s3:GetObject"]
    case ReadWrite => ["s3:GetObject", "s3:PutObject", "s3:DeleteObject", "s3:AbortMultipartUpload", "s3:ListMultipartUploadParts"]
    case Full => ["s3:*"]
  }

  function BucketArn(bucket: string): string {
    "arn:aws:s3:::" + bucket
  }

  function ObjectsArn(bucket: string): string {
    BucketArn(bucket) + "/*"
  }

  function AnonymousRead(bucket: string, sid: string): Stmt {
    Stmt(sid, true, Anyone, ["s3:GetObject"], ObjectsArn(bucket), "")
  }

  function BucketStmt(bucket: string, uid: string, p: Permission): Stmt {
    Stmt(GrantSid(uid), true, Users([uid]), BucketActions(p), BucketArn(bucket), "")
  }

  function ObjectStmt(bucket: string, uid: string, p: Permission): Stmt {
    Stmt(ObjectSid(uid), true, Users([uid]), ObjectActions(p), ObjectsArn(bucket), "")
  }

  /** `permissionFromActions`. */
  function PermissionOf(actions: seq<string>): Permission {
    if actions == [] then Read
    else if actions[0] == "s3:*" then Full
    else if actions[0] == "s3:ListBucketMultipartUploads" then ReadWrite
    else PermissionOf(actions[1..])
  }

  /** The level read back from a grant's bucket statement is the level that was written. */
  lemma PermissionRoundTrip(p: Permission)
    ensures PermissionOf(BucketActions(p)) == p
  {
    var a := BucketActions(p);
    if p != Full {
      var b := a[1..];
      var c := b[1..];
      assert |a[0]| == 13 && |b[0]| == 20;
      assert PermissionOf(a) == PermissionOf(b) == PermissionOf(c);
      assert c == if p == ReadWrite then ["s3:ListBucketMultipartUploads"] else [];
      if p == ReadWrite { assert |c[0]| == 29; }
    }
  }

  // ----- editing a statement list -----

  /** The first statement with this Sid. */
  function Find(stmts: seq<Stmt>, sid: string): Option<Stmt> {
    if stmts == [] then None
    else if stmts[0].sid == sid then Some(stmts[0])
    else Find(stmts[1..], sid)
  }

  function Upsert(stmts: seq<Stmt>, s: Stmt): seq<Stmt> {
    if stmts == [] then [s]
    else if stmts[0].sid == s.sid then [s] + stmts[1..]
    else [stmts[0]] + Upsert(stmts[1..], s)
  }

  function Remove(stmts: seq<Stmt>, sid: string): seq<Stmt> {
    if stmts == [] then []
    else if stmts[0].sid == sid then stmts[1..]
    else [stmts[0]] + Remove(stmts[1..], sid)
  }

  /** The statements Stratos owns, or those it does not, in order. */
  function Owned(stmts: seq<Stmt>, ours: bool): seq<Stmt> {
    if stmts == [] then []
    else (if IsStratos(stmts[0].sid) == ours then [stmts[0]] else []) + Owned(stmts[1..], ours)
  }

  /** No Stratos Sid occurs twice. */
  ghost predicate OncePerSid(stmts: seq<Stmt>) {
    forall i, j :: 0 <= i < j < |stmts| && IsStratos(stmts[i].sid) ==> stmts[i].sid != stmts[j].sid
  }

  lemma {:induction false} FindMeans(stmts: seq<Stmt>, sid: string)
    ensures Find(stmts, sid).None? <==> forall i :: 0 <= i < |stmts| ==> stmts[i].sid != sid
    ensures Find(stmts, sid).Some? ==> Find(stmts, sid).value in stmts && Find(stmts, sid).value.sid == sid
  {
    if stmts != [] {
      FindMeans(stmts[1..], sid);
    }
  }

  /** With unique Sids a statement is found under its Sid. */
  lemma {:induction false} FindUnique(stmts: seq<Stmt>, i: nat)
    requires OncePerSid(stmts) && i < |stmts| && IsStratos(stmts[i].sid)
    ensures Find(stmts, stmts[i].sid) == Some(stmts[i])
  {
    if i > 0 {
      assert stmts[0].sid != stmts[i].sid;
      TailOnce(stmts);
      FindUnique(stmts[1..], i - 1);
    }
  }

  lemma TailOnce(stmts: seq<Stmt>)
    requires OncePerSid(stmts) && stmts != []
    ensures OncePerSid(stmts[1..])
    ensures IsStratos(stmts[0].sid) ==> Find(stmts[1..], stmts[0].sid).None?
  {
    hide IsStratos;
    FindMeans(stmts[1..], stmts[0].sid);
  }

  lemma ConsOnce(s: Stmt, rest: seq<Stmt>)
    requires OncePerSid(rest) && (IsStratos(s.sid) ==> Find(rest, s.sid).None?)
    ensures OncePerSid([s] + rest)
  {
    hide IsStratos;
    FindMeans(rest, s.sid);
    var stmts := [s] + rest;
    forall i, j | 0 <= i < j < |stmts| && IsStratos(stmts[i].sid) ensures stmts[i].sid != stmts[j].sid {
      assert stmts[j] == rest[j - 1];
      if i > 0 { assert stmts[i] == rest[i - 1]; }
    }
  }

  /** Upserting changes what is found under one Sid, and nothing of the customer's. */
  lemma {:induction false} UpsertEffect(stmts: seq<Stmt>, s: Stmt, sid: string)
    requires IsStratos(s.sid)
    ensures Find(Upsert(stmts, s), sid) == if sid == s.sid then Some(s) else Find(stmts, sid)
    ensures Owned(Upsert(stmts, s), false) == Owned(stmts, false)
    ensures OncePerSid(stmts) ==> OncePerSid(Upsert(stmts, s))
  {
    hide IsStratos;
    if stmts == [] {
      assert [s][1..] == [];
      assert Find([s], sid) == if s.sid == sid then Some(s) else Find([], sid);
      assert Owned([s], false) == [] + Owned([], false);
    } else {
      var h, rest := stmts[0], stmts[1..];
      if h.sid == s.sid {
        assert ([s] + rest)[1..] == rest;
        if OncePerSid(stmts) { TailOnce(stmts); ConsOnce(s, rest); }
      } else {
        UpsertEffect(rest, s, sid);
        var r := Upsert(rest, s);
        assert ([h] + r)[1..] == r;
        if OncePerSid(stmts) {
          TailOnce(stmts);
          UpsertEffect(rest, s, h.sid);
          ConsOnce(h, r);
        }
      }
    }
  }

  lemma {:induction false} RemoveEffect(stmts: seq<Stmt>, gone: string, sid: string)
    requires IsStratos(gone) && OncePerSid(stmts)
    ensures Find(Remove(stmts, gone), sid) == if sid == gone then None else Find(stmts, sid)
    ensures Owned(Remove(stmts, gone), false) == Owned(stmts, false)
    ensures OncePerSid(Remove(stmts, gone))
  {
    hide IsStratos;
    if stmts != [] {
      var h, rest := stmts[0], stmts[1..];
      TailOnce(stmts);
      if h.sid != gone {
        RemoveEffect(rest, gone, sid);
        RemoveEffect(rest, gone, h.sid);
        var r := Remove(rest, gone);
        assert ([h] + r)[1..] == r;
        ConsOnce(h, r);
      }
    }
  }

  /** Removing what is not there changes nothing. */
  lemma {:induction false} RemoveAbsent(stmts: seq<Stmt>, sid: string)
    requires Find(stmts, sid).None?
    ensures Remove(stmts, sid) == stmts
  {
    if stmts != [] { RemoveAbsent(stmts[1..], sid); }
  }

  lemma {:induction false} OwnedAppend(a: seq<Stmt>, b: seq<Stmt>, ours: bool)
    ensures Owned(a + b, ours) == Owned(a, ours) + Owned(b, ours)
  {
    if a == [] {
      assert a + b == b;
    } else {
      assert (a + b)[1..] == a[1..] + b;
      OwnedAppend(a[1..], b, ours);
    }
  }

  lemma {:induction false} OwnedTwice(stmts: seq<Stmt>, ours: bool, again: bool)
    ensures Owned(Owned(stmts, ours), again) == if ours == again then Owned(stmts, ours) else []
  {
    hide IsStratos;
    if stmts != [] {
      OwnedTwice(stmts[1..], ours, again);
      var r := Owned(stmts[1..], ours);
      if IsStratos(stmts[0].sid) == ours { assert ([stmts[0]] + r)[1..] == r; } else { assert [] + r == r; }
    }
  }

  lemma {:induction false} FindOwned(stmts: seq<Stmt>, sid: string)
    requires IsStratos(sid)
    ensures Find(Owned(stmts, true), sid) == Find(stmts, sid)
    ensures OncePerSid(stmts) ==> OncePerSid(Owned(stmts, true))
  {
    hide IsStratos;
    if stmts != [] {
      FindOwned(stmts[1..], sid);
      var r := Owned(stmts[1..], true);
      if IsStratos(stmts[0].sid) {
        assert ([stmts[0]] + r)[1..] == r;
        if OncePerSid(stmts) {
          TailOnce(stmts);
          FindOwned(stmts[1..], stmts[0].sid);
          ConsOnce(stmts[0], r);
        }
      } else {
        assert [] + r == r;
        if OncePerSid(stmts) { TailOnce(stmts); }
      }
    }
  }

  /** Customer statements in front of Stratos statements hide none of them. */
  lemma {:induction false} FindBehind(theirs: seq<Stmt>, ours: seq<Stmt>, sid: string)
    requires IsStratos(sid) && (forall i :: 0 <= i < |theirs| ==> !IsStratos(theirs[i].sid))
    ensures Find(theirs + ours, sid) == Find(ours, sid)
    ensures OncePerSid(ours) ==> OncePerSid(theirs + ours)
  {
    hide IsStratos;
    if theirs == [] {
      assert theirs + ours == ours;
    } else {
      assert theirs + ours == [theirs[0]] + (theirs[1..] + ours);
      FindBehind(theirs[1..], ours, sid);
      if OncePerSid(ours) { ConsOnce(theirs[0], theirs[1..] + ours); }
    }
  }

  lemma {:induction false} OwnedSids(stmts: seq<Stmt>, ours: bool)
    ensures forall i :: 0 <= i < |Owned(stmts, ours)| ==> IsStratos(Owned(stmts, ours)[i].sid) == ours
    ensures forall s :: s in Owned(stmts, ours) <==> s in stmts && IsStratos(s.sid) == ours
  {
    hide IsStratos;
    if stmts != [] { OwnedSids(stmts[1..], ours); }
  }

  // ----- grant Sids -----

  lemma PrefixCancels(a: string, b: string)
    ensures GrantSid(a) == GrantSid(b) <==> a == b
  {
    assert GrantSid(a)[|GRANT|..] == a && GrantSid(b)[|GRANT|..] == b;
  }

  lemma SuffixCancels(a: string, b: string)
    ensures ObjectSid(a) == ObjectSid(b) <==> a == b
    ensures ObjectSid(a) == GrantSid(b) <==> b == a + OBJECTS
  {
    var x, y := ObjectSid(a), ObjectSid(b);
    if x == y {
      assert x[|GRANT|..|x| - |OBJECTS|] == a && y[|GRANT|..|y| - |OBJECTS|] == b;
    }
    assert x == GrantSid(a + OBJECTS) by { assert GRANT + a + OBJECTS == GRANT + (a + OBJECTS); }
    PrefixCancels(a + OBJECTS, b);
  }

  function GrantSids(uid: string): set<string> {
    {GrantSid(uid), ObjectSid(uid)}
  }

  /** The Sids of two users' grants are disjoint exactly when the users differ and neither is
      the other with `-Objects` appended. */
  lemma GrantSidsDisjoint(a: string, b: string)
    ensures GrantSids(a) !! GrantSids(b) <==> a != b && a != b + OBJECTS && b != a + OBJECTS
  {
    PrefixCancels(a, b);
    SuffixCancels(a, b);
    SuffixCancels(b, a);
    assert GrantSid(a) in GrantSids(a) && ObjectSid(a) in GrantSids(a);
    assert GrantSid(b) in GrantSids(b) && ObjectSid(b) in GrantSids(b);
  }

  /** Users whose bucket Sid is not mistaken for an object Sid. */
  predicate PlainUid(uid: string) {
    !HasSuffix(uid, OBJECTS) && uid != "Objects"
  }

  predicate KeyChar(c: char) {
    'a' <= c <= 'z' || '0' <= c <= '9' || c == '-'
  }

  /** `keyNamePattern`: 3 to 32 characters, no hyphen at either end. */
  predicate ValidKeyName(name: string) {
    && 3 <= |name| <= 32 && (forall i :: 0 <= i < |name| ==> KeyChar(name[i]))
    && name[0] != '-' && name[|name| - 1] != '-'
  }

  /** Every project S3 key is plain, because a key name has no capital letter. */
  lemma KeyUidIsPlain(project: string, name: string)
    requires ValidKeyName(name)
    ensures PlainUid(project + "-" + name)
  {
    var uid := project + "-" + name;
    assert uid[|uid| - 1 - |name|] == '-';
    if |uid| >= 8 {
      var tail := uid[|uid| - 8..];
      var k := if |name| >= 7 then 1 else 7 - |name|;
      assert tail[k] == if |name| >= 7 then name[|name| - 7] else '-';
      CapitalOrLetter(k);
    }
    if |uid| == 7 {
      assert uid[6 - |name|] == '-';
      CapitalOrLetter(7 - |name|);
      assert "Objects"[6 - |name|] == OBJECTS[7 - |name|];
    }
  }

  lemma CapitalOrLetter(k: nat)
    requires 1 <= k <= 7
    ensures OBJECTS[k] != '-' && (k == 1 ==> !KeyChar(OBJECTS[k]))
    ensures |OBJECTS| == 8 && OBJECTS[1..] == "Objects" && OBJECTS[0] == '-'
  {
  }

  /** `ListBucketGrants` skips the object twins by their suffix: it skips the bucket statement
      of exactly the users that are not plain. */
  lemma ListedSids(uid: string)
    ensures IsGrantSid(GrantSid(uid)) && GrantSid(uid)[|GRANT|..] == uid
    ensures HasSuffix(ObjectSid(uid), OBJECTS)
    ensures HasSuffix(GrantSid(uid), OBJECTS) <==> !PlainUid(uid)
  {
    var g := GrantSid(uid);
    var tail := g[|g| - 8..];
    CapitalOrLetter(1);
    if |uid| >= 8 {
      assert tail == uid[|uid| - 8..];
    } else {
      assert tail[7 - |uid|] == '-' && tail[8 - |uid|..] == uid;
      if |uid| < 7 { CapitalOrLetter(7 - |uid|); } else { assert tail == ['-'] + uid && OBJECTS == ['-'] + "Objects"; }
    }
  }
}
