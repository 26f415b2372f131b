/** Who may do what with a bucket: the stored policy document, evaluated statement by statement,
    against the table of access levels. */
module PolicyAccess {
  import opened Base
  import opened Policy
  import opened PolicyRuns
  import opened PolicyEditing
  import opened BucketRuns

  /** One action of S3, not a pattern. */
  predicate IsAction(action: string) {
    HasPrefix(action, "s3:") && action != "s3:*"
  }

  /** The statement is about the user, the action and the resource. */
  predicate Covers(s: Stmt, user: string, action: string, resource: string) {
    && (s.principal.Anyone? || (s.principal.Users? && user in s.principal.uids))
    && (action in s.actions || "s3:*" in s.actions)
    && s.resource == resource
  }

  /** Which of the customer's statements apply is left open; one under a Stratos Sid applies when it
      covers the request. */
  ghost predicate Decides(applies: Stmt -> bool, user: string, action: string, resource: string) {
    forall s: Stmt :: IsStratos(s.sid) ==> (applies(s) <==> Covers(s, user, action, resource))
  }

  /** The levels that a request needs: reading lists the bucket and gets objects, writing also puts
      and deletes them, and full access is everything on the bucket and its objects. */
  function Levels(bucket: string, action: string, resource: string): set<Permission> {
    if resource == "arn:aws:s3:::" + bucket then
      if action in {"s3:ListBucket", "s3:GetBucketLocation"} then {Read, ReadWrite, Full}
      else if action == "s3:ListBucketMultipartUploads" then {ReadWrite, Full}
      else {Full}
    else if resource == "arn:aws:s3:::" + bucket + "/*" then
      if action == "s3:GetObject" then {Read, ReadWrite, Full}
      else if action in {"s3:PutObject", "s3:DeleteObject", "s3:AbortMultipartUpload", "s3:ListMultipartUploadParts"} then {ReadWrite, Full}
      else {Full}
    else {}
  }

  /** An anonymous read of the objects. */
  predicate ReadsObject(bucket: string, action: string, resource: string) {
    action == "s3:GetObject" && resource == "arn:aws:s3:::" + bucket + "/*"
  }

  // ----- the statements of one grant -----

  lemma ArnsDiffer(bucket: string)
    ensures BucketArn(bucket) == "arn:aws:s3:::" + bucket && ObjectsArn(bucket) == "arn:aws:s3:::" + bucket + "/*"
    ensures BucketArn(bucket) != ObjectsArn(bucket)
  {
  }

  lemma GrantCovers(bucket: string, v: string, p: Permission, user: string, action: string, resource: string)
    requires IsAction(action)
    ensures Covers(BucketStmt(bucket, v, p), user, action, resource) || Covers(ObjectStmt(bucket, v, p), user, action, resource)
      <==> user == v && p in Levels(bucket, action, resource)
  {
    ArnsDiffer(bucket);
    hide BucketArn, ObjectsArn;
    assert BucketActions(Full) == ["s3:*"] == ObjectActions(Full);
    if p == Full { assert "s3:*" in BucketActions(p); }
    assert |"s3:*"| == 4 && p != Full ==> "s3:*" !in BucketActions(p) && "s3:*" !in ObjectActions(p);
  }

  lemma FlagCovers(bucket: string, sid: string, user: string, action: string, resource: string)
    ensures Covers(AnonymousRead(bucket, sid), user, action, resource) <==> ReadsObject(bucket, action, resource)
  {
    ArnsDiffer(bucket);
    assert |"s3:*"| != |"s3:GetObject"|;
  }

  // ----- one document -----

  /** What Stratos' own statements let the user do. */
  predicate OursLet(bucket: string, r: Record, user: string, action: string, resource: string) {
    (user in r.grants && r.grants[user] in Levels(bucket, action, resource)) || ((r.website || r.public) && ReadsObject(bucket, action, resource))
  }

  /** A stored Stratos statement that covers the request is one that the record calls for. */
  lemma StoredCovers(bucket: string, r: Record, s: Stmt, user: string, action: string, resource: string)
    requires PlainGrants(r) && Expected(bucket, r, s.sid) == Some(s) && IsAction(action)
    ensures s.allow && (Covers(s, user, action, resource) ==> OursLet(bucket, r, user, action, resource))
  {
    hide Covers, BucketStmt, ObjectStmt, AnonymousRead, Levels, ReadsObject;
    if s.sid == WEBSITE || s.sid == PUBLIC {
      FlagCovers(bucket, s.sid, user, action, resource);
      assert s.allow by { FlagAllows(bucket, s.sid); }
    } else {
      var name := s.sid[|GRANT|..];
      var v := if name in r.grants then name else name[..|name| - |OBJECTS|];
      GrantCovers(bucket, v, r.grants[v], user, action, resource);
      GrantAllows(bucket, v, r.grants[v]);
    }
  }

  lemma FlagAllows(bucket: string, sid: string)
    ensures AnonymousRead(bucket, sid).allow && AnonymousRead(bucket, sid).sid == sid
  {
  }

  lemma GrantAllows(bucket: string, u: string, p: Permission)
    ensures BucketStmt(bucket, u, p).allow && ObjectStmt(bucket, u, p).allow
    ensures BucketStmt(bucket, u, p).sid == GrantSid(u) && ObjectStmt(bucket, u, p).sid == ObjectSid(u)
  {
  }

  /** The statement that the record calls for is stored. */
  lemma OursStored(bucket: string, stmts: seq<Stmt>, r: Record, user: string, action: string, resource: string) returns (s: Stmt)
    requires Refines(bucket, stmts, r) && PlainGrants(r) && OursLet(bucket, r, user, action, resource) && IsAction(action)
    ensures s in stmts && s.allow && IsStratos(s.sid) && Covers(s, user, action, resource)
  {
    hide Covers, BucketStmt, ObjectStmt, AnonymousRead, Levels, ReadsObject, ObjectSid, GrantSid, OncePerSid, IsGrantSid;
    if user in r.grants && r.grants[user] in Levels(bucket, action, resource) {
      var p := r.grants[user];
      ExpectedOfUser(bucket, r, user);
      GrantCovers(bucket, user, p, user, action, resource);
      GrantAllows(bucket, user, p);
      StratosGrants(user);
      s := if Covers(BucketStmt(bucket, user, p), user, action, resource) then BucketStmt(bucket, user, p) else ObjectStmt(bucket, user, p);
    } else {
      FlagSids();
      var sid := if r.website then WEBSITE else PUBLIC;
      FlagCovers(bucket, sid, user, action, resource);
      FlagAllows(bucket, sid);
      s := AnonymousRead(bucket, sid);
    }
    assert Find(stmts, s.sid) == Some(s);
    FindMeans(stmts, s.sid);
  }

  lemma OursDecide(bucket: string, stmts: seq<Stmt>, r: Record, applies: Stmt -> bool, allow: bool, user: string, action: string, resource: string)
    requires Refines(bucket, stmts, r) && PlainGrants(r) && Decides(applies, user, action, resource) && IsAction(action)
    ensures Applies(stmts, applies, allow) <==> Applies(r.customer, applies, allow) || (allow && OursLet(bucket, r, user, action, resource))
  {
    hide Expected, Covers, OursLet, IsStratos;
    OwnedSids(stmts, false);
    if Applies(stmts, applies, allow) {
      var s :| s in stmts && s.allow == allow && applies(s);
      if IsStratos(s.sid) {
        var i :| 0 <= i < |stmts| && stmts[i] == s;
        FindUnique(stmts, i);
        StoredCovers(bucket, r, s, user, action, resource);
      } else {
        assert s in r.customer;
      }
    }
    if allow && OursLet(bucket, r, user, action, resource) {
      var s := OursStored(bucket, stmts, r, user, action, resource);
      assert applies(s);
    }
    if Applies(r.customer, applies, allow) {
      var s :| s in r.customer && s.allow == allow && applies(s);
      assert s in stmts;
    }
  }

  /** MAIN RESULT.  However the customer's statements are matched: a user may make a request exactly
      when its level is one the request needs, or the request reads an object and the website or
      the public flag is on, or a statement of the customer's allows it; and none of those denies it. */
  lemma MayExactly(bucket: string, stmts: seq<Stmt>, r: Record, applies: Stmt -> bool, user: string, action: string, resource: string)
    requires Refines(bucket, stmts, r) && PlainGrants(r) && Decides(applies, user, action, resource) && IsAction(action)
    ensures Allowed(stmts, applies) <==>
      && ((user in r.grants && r.grants[user] in Levels(bucket, action, resource))
          || ((r.website || r.public) && ReadsObject(bucket, action, resource))
          || Applies(r.customer, applies, true))
      && !Applies(r.customer, applies, false)
  {
    hide Refines, Decides, Levels, ReadsObject, Applies;
    OursDecide(bucket, stmts, r, applies, true, user, action, resource);
    OursDecide(bucket, stmts, r, applies, false, user, action, resource);
  }

  // ----- whole runs -----

  /** Whether the website (or the public) flag was last switched on in a run. */
  predicate LastOn(run: seq<Event>, website: bool) {
    if run == [] then false
    else
      var e := run[|run| - 1];
      if e.written && website && e.op.Website? then e.op.on
      else if e.written && !website && e.op.Public? then e.op.on
      else LastOn(run[..|run| - 1], website)
  }

  /** What the customer last stored: the statements of its document without those under a Stratos
      Sid, or what was there at first. */
  function LastGiven(run: seq<Event>, stmts: seq<Stmt>): seq<Stmt> {
    if run == [] then stmts
    else
      var e := run[|run| - 1];
      if e.written && e.op.Replace? then Owned(e.op.input, false) else LastGiven(run[..|run| - 1], stmts)
  }

  lemma {:induction false} FlagsOfRun(stmts: seq<Stmt>, run: seq<Event>)
    ensures var r := PerformAll(Before(stmts), run);
      r.website == LastOn(run, true) && r.public == LastOn(run, false) && r.customer == LastGiven(run, stmts)
  {
    hide Owned;
    if run != [] {
      var front, last := run[..|run| - 1], run[|run| - 1];
      assert run == front + [last];
      PerformSnoc(Before(stmts), front, last);
      FlagsOfRun(stmts, front);
    }
  }

  /** MAIN RESULT.  After any run of writes, at any failure, on a bucket without Stratos statements:
      the level last granted and not revoked since, the flags as last switched and the customer's
      statements as last stored decide every request, and nothing else does. */
  lemma AccessAfterRun(bucket: string, stmts: seq<Stmt>, run: seq<Event>, applies: Stmt -> bool, user: string, action: string, resource: string)
    requires Untouched(stmts) && (forall i :: 0 <= i < |run| ==> Plain(run[i].op))
    requires Decides(applies, user, action, resource) && IsAction(action)
    ensures Allowed(EditAll(bucket, stmts, run), applies) <==>
      && ((LastGranted(run, user).Some? && LastGranted(run, user).value in Levels(bucket, action, resource))
          || ((LastOn(run, true) || LastOn(run, false)) && ReadsObject(bucket, action, resource))
          || Applies(LastGiven(run, stmts), applies, true))
      && !Applies(LastGiven(run, stmts), applies, false)
  {
    hide Refines, EditAll, PerformAll, Decides, Allowed, Applies, Levels, ReadsObject, LastGranted, LastOn, LastGiven, Plain;
    UntouchedRefines(bucket, stmts);
    RunRefines(bucket, stmts, Before(stmts), run);
    GrantsOfRun(stmts, run, user);
    FlagsOfRun(stmts, run);
    MayExactly(bucket, EditAll(bucket, stmts, run), PerformAll(Before(stmts), run), applies, user, action, resource);
  }

  /** The same after any run of calls, whatever of their remote calls fail or lose their answers. */
  lemma AccessAfterCalls(name: string, b: Bucket, run: seq<Made>, applies: Stmt -> bool, user: string, action: string, resource: string)
    requires Untouched(StmtsOf(b)) && PlainCalls(run) && Decides(applies, user, action, resource) && IsAction(action)
    ensures var events := EventsOf(name, b, run);
      Allowed(StmtsOf(AfterAll(name, b, run)), applies) <==>
        && ((LastGranted(events, user).Some? && LastGranted(events, user).value in Levels(name, action, resource))
            || ((LastOn(events, true) || LastOn(events, false)) && ReadsObject(name, action, resource))
            || Applies(LastGiven(events, StmtsOf(b)), applies, true))
        && !Applies(LastGiven(events, StmtsOf(b)), applies, false)
  {
    hide EventsOf, AfterAll, EditAll, StmtsOf, Decides, Allowed, Applies, Levels, ReadsObject, LastGranted, LastOn, LastGiven, Plain, Untouched;
    CallsAreEvents(name, b, run);
    PlainEvents(name, b, run);
    AccessAfterRun(name, StmtsOf(b), EventsOf(name, b, run), applies, user, action, resource);
  }
}
