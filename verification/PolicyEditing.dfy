/** The policy document as the Ceph backend edits it: in-place loops over the statement list,
    and remote reads and writes that may fail at any point. */
module PolicyEditing {
  import opened Base
  import opened Policy
  import opened PolicyRuns

  /** `policyDoc`. */
  class Document {
    var version: string
    var id: string
    var stmts: seq<Stmt>

    constructor (d: PolicyDoc)
      ensures Value() == d
    {
      version, id, stmts := d.version, d.id, d.stmts;
    }

    function Value(): PolicyDoc
      reads this
    {
      PolicyDoc(version, id, stmts)
    }

    /** Replaces the first statement with the same Sid in place, else appends. */
    method UpsertStmt(s: Stmt)
      requires s.sid != ""
      modifies this`stmts
      ensures stmts == Upsert(old(stmts), s)
    {
      for i := 0 to |stmts|
        invariant stmts == old(stmts)
        invariant forall k :: 0 <= k < i ==> stmts[k].sid != s.sid
      {
        if stmts[i].sid == s.sid {
          UpsertAt(stmts, i, s);
          stmts := stmts[i := s];
          return;
        }
      }
      UpsertAt(stmts, |stmts|, s);
      stmts := stmts + [s];
    }

    /** Drops the first statement with the Sid; tells whether there was one. */
    method RemoveStmt(sid: string) returns (removed: bool)
      modifies this`stmts
      ensures stmts == Remove(old(stmts), sid)
      ensures removed <==> Find(old(stmts), sid).Some?
    {
      FindMeans(stmts, sid);
      for i := 0 to |stmts|
        invariant stmts == old(stmts)
        invariant forall k :: 0 <= k < i ==> stmts[k].sid != sid
      {
        if stmts[i].sid == sid {
          RemoveAt(stmts, i, sid);
          stmts := stmts[..i] + stmts[i + 1..];
          return true;
        }
      }
      RemoveAbsent(stmts, sid);
      removed := false;
    }
  }

  lemma {:induction false} UpsertAt(stmts: seq<Stmt>, i: nat, s: Stmt)
    requires i <= |stmts| && forall k :: 0 <= k < i ==> stmts[k].sid != s.sid
    requires i < |stmts| ==> stmts[i].sid == s.sid
    ensures Upsert(stmts, s) == if i < |stmts| then stmts[i := s] else stmts + [s]
  {
    if i > 0 {
      UpsertAt(stmts[1..], i - 1, s);
      assert stmts == [stmts[0]] + stmts[1..];
    }
  }

  lemma {:induction false} RemoveAt(stmts: seq<Stmt>, i: nat, sid: string)
    requires i < |stmts| && stmts[i].sid == sid && forall k :: 0 <= k < i ==> stmts[k].sid != sid
    ensures Remove(stmts, sid) == stmts[..i] + stmts[i + 1..]
  {
    if i > 0 {
      RemoveAt(stmts[1..], i - 1, sid);
      assert stmts[..i] == [stmts[0]] + stmts[1..][..i - 1];
      assert stmts[1..][i..] == stmts[i + 1..];
    }
  }

  /** `stratosStmts` and the filter of `SetBucketPolicyJSON`, as the loops they are. */
  method Select(stmts: seq<Stmt>, ours: bool) returns (out: seq<Stmt>)
    ensures out == Owned(stmts, ours)
  {
    out := [];
    for i := 0 to |stmts|
      invariant Owned(stmts, ours) == out + Owned(stmts[i..], ours)
    {
      assert stmts[i..][1..] == stmts[i + 1..];
      if IsStratos(stmts[i].sid) == ours { out := out + [stmts[i]]; }
    }
    assert stmts[|stmts|..] == [];
  }

  // ----- the bucket and its calls -----

  /** How a remote write ends: a lost answer hides a write that happened. */
  datatype Reply = Done | Refused | Lost

  predicate Landed(r: Reply) {
    r != Refused
  }

  /** The fate of each remote call: reading the policy, writing it, the website configuration,
      taking the configuration back, and the ACL. */
  datatype Faults = Faults(getFails: bool, put: Reply, site: Reply, rollback: Reply, acl: Reply)

  /** The bucket in RGW: its policy (None when it has none), its website configuration and
      whether its ACL allows public listing. */
  datatype Bucket = Bucket(policy: Option<PolicyDoc>, site: Option<(string, string)>, publicAcl: bool)

  datatype Call =
    | EnableSite(index: string, error: string)
    | DisableSite
    | SetPublic(public: bool)
    | SetRead(public: bool)
    | GrantAccess(uid: string, p: Permission)
    | RevokeAccess(uid: string)
    | ReplacePolicy(input: Option<PolicyDoc>)

  /** A document as it is read: an absent version is the current one. */
  function Versioned(d: PolicyDoc): PolicyDoc {
    if d.version == "" then d.(version := VERSION) else d
  }

  /** The document as every call reads it. */
  function DocOf(b: Bucket): PolicyDoc {
    Versioned(if b.policy.Some? then b.policy.value else PolicyDoc("", "", []))
  }

  function StmtsOf(b: Bucket): seq<Stmt> {
    DocOf(b).stmts
  }

  /** What is stored for a document with the given statements; without any, no policy. */
  function Put(d: PolicyDoc, stmts: seq<Stmt>): Option<PolicyDoc> {
    if stmts == [] then None else Some(d.(stmts := stmts))
  }

  function Given(input: Option<PolicyDoc>): PolicyDoc {
    Versioned(if input.Some? then input.value else PolicyDoc("", "", []))
  }

  /** What a call does to the document. */
  function OpOf(c: Call): Op {
    match c
    case EnableSite(_, _) => Website(true)
    case DisableSite => Website(false)
    case SetPublic(p) => Public(p)
    case SetRead(p) => Public(p)
    case GrantAccess(u, p) => Grant(u, p)
    case RevokeAccess(u) => Revoke(u)
    case ReplacePolicy(input) => Replace(Given(input).stmts)
  }

  /** Turning off a flag whose statement is absent writes nothing. */
  predicate Writes(stmts: seq<Stmt>, c: Call) {
    match c
    case DisableSite => Find(stmts, WEBSITE).Some?
    case SetPublic(p) => p || Find(stmts, PUBLIC).Some?
    case SetRead(p) => p || Find(stmts, PUBLIC).Some?
    case _ => true
  }

  /** A custom policy without statements is refused. */
  predicate Invalid(c: Call) {
    c.ReplacePolicy? && c.input.Some? && c.input.value.stmts == []
  }

  /** The document part of a call succeeds. */
  predicate DocDone(b: Bucket, c: Call, f: Faults) {
    !Invalid(c) && !f.getFails && (Writes(StmtsOf(b), c) ==> f.put == Done)
  }

  /** The document is written, whatever the caller is told. */
  predicate DocWritten(b: Bucket, c: Call, f: Faults) {
    !Invalid(c) && !f.getFails && Writes(StmtsOf(b), c) && Landed(f.put)
  }

  function DocAfter(name: string, b: Bucket, c: Call, f: Faults): Option<PolicyDoc> {
    if !DocWritten(b, c, f) then b.policy
    else Put(if c.ReplacePolicy? then Given(c.input) else DocOf(b), Edit(name, StmtsOf(b), OpOf(c)))
  }

  function SiteOf(index: string, error: string): (string, string) {
    (if index == "" then "index.html" else index, error)
  }

  /** The call gets as far as the document: the write before it succeeds. */
  predicate Enters(c: Call, f: Faults) {
    match c
    case EnableSite(_, _) => f.site == Done
    case DisableSite => f.site == Done
    case SetRead(_) => f.acl == Done
    case _ => true
  }

  /** The bucket after a call, and whether the caller is told that it succeeded. */
  function After(name: string, b: Bucket, c: Call, f: Faults): (Bucket, bool) {
    var done := Enters(c, f) && DocDone(b, c, f);
    var d := if Enters(c, f) then b.(policy := DocAfter(name, b, c, f)) else b;
    match c
    case EnableSite(index, error) =>
      if !Landed(f.site) then (b, false)
      else if f.site == Done && !done && Landed(f.rollback) then (d.(site := None), false)
      else (d.(site := Some(SiteOf(index, error))), done)
    case DisableSite => (if Landed(f.site) then d.(site := None) else d, done)
    case SetRead(public) => (if Landed(f.acl) then d.(publicAcl := public) else d, done)
    case _ => (d, done)
  }

  class CephBucket {
    const name: string
    var policy: Option<PolicyDoc>
    var site: Option<(string, string)>
    var publicAcl: bool

    constructor (name: string)
      ensures this.name == name && View() == Bucket(None, None, false)
    {
      this.name, policy, site, publicAcl := name, None, None, false;
    }

    function View(): Bucket
      reads this
    {
      Bucket(policy, site, publicAcl)
    }

    /** A bucket without a policy reads as an empty document. */
    method GetPolicyDoc(f: Faults) returns (doc: Option<Document>)
      ensures doc.None? <==> f.getFails
      ensures doc.Some? ==> fresh(doc.value) && doc.value.Value() == DocOf(View())
    {
      if f.getFails { return None; }
      var d := new Document(if policy.Some? then policy.value else PolicyDoc(VERSION, "", []));
      if d.version == "" { d.version := VERSION; }
      doc := Some(d);
    }

    /** An empty document deletes the policy. */
    method PutPolicyDoc(doc: Document, f: Faults) returns (ok: bool)
      modifies this`policy
      ensures ok <==> f.put == Done
      ensures policy == if Landed(f.put) then Put(doc.Value(), doc.stmts) else old(policy)
    {
      if f.put == Refused { return false; }
      policy := if |doc.stmts| == 0 then None else Some(doc.Value());
      ok := f.put == Done;
    }

    /** `setPublicRead`; removing an absent statement writes nothing. */
    method SetPublicRead(public: bool, f: Faults) returns (ok: bool)
      modifies this`policy
      ensures ok <==> !f.getFails && (public || Find(StmtsOf(old(View())), PUBLIC).Some? ==> f.put == Done)
      ensures (View(), ok) == After(name, old(View()), SetPublic(public), f)
    {
      var doc := GetPolicyDoc(f);
      if doc.None? { return false; }
      var changed := true;
      if public {
        doc.value.UpsertStmt(AnonymousRead(name, PUBLIC));
      } else {
        changed := doc.value.RemoveStmt(PUBLIC);
      }
      ok := true;
      if changed { ok := PutPolicyDoc(doc.value, f); }
    }

    /** The ACL first, then the policy. */
    method SetBucketRead(public: bool, f: Faults) returns (ok: bool)
      modifies this`policy, this`publicAcl
      ensures ok <==> f.acl == Done && !f.getFails && (public || Find(StmtsOf(old(View())), PUBLIC).Some? ==> f.put == Done)
      ensures publicAcl == if Landed(f.acl) then public else old(publicAcl)
      ensures (View(), ok) == After(name, old(View()), SetRead(public), f)
    {
      if f.acl == Refused { return false; }
      publicAcl := public;
      if f.acl == Lost { return false; }
      ghost var before := View();
      ok := SetPublicRead(public, f);
      assert (View(), ok) == After(name, before, SetPublic(public), f);
    }

    /** Publish last: the website configuration, then the policy.  If the policy cannot be
        written the configuration is deleted, a former one with it. */
    method EnableWebsite(index: string, error: string, f: Faults) returns (ok: bool)
      modifies this`policy, this`site
      ensures ok <==> f.site == Done && !f.getFails && f.put == Done
      ensures site == if f.site == Refused then old(site)
                      else if f.site == Done && !ok && Landed(f.rollback) then None
                      else Some((if index == "" then "index.html" else index, error))
      ensures (View(), ok) == After(name, old(View()), EnableSite(index, error), f)
    {
      if f.site == Refused { return false; }
      site := Some((if index == "" then "index.html" else index, error));
      if f.site == Lost { return false; }
      ok := false;
      var doc := GetPolicyDoc(f);
      if doc.Some? {
        doc.value.UpsertStmt(AnonymousRead(name, WEBSITE));
        ok := PutPolicyDoc(doc.value, f);
      }
      if !ok && f.rollback != Refused { site := None; }
    }

    /** The configuration first, then the statement, if it is there. */
    method DisableWebsite(f: Faults) returns (ok: bool)
      modifies this`policy, this`site
      ensures ok <==> f.site == Done && !f.getFails && (Find(StmtsOf(old(View())), WEBSITE).Some? ==> f.put == Done)
      ensures site == if Landed(f.site) then None else old(site)
      ensures (View(), ok) == After(name, old(View()), DisableSite, f)
    {
      if f.site == Refused { return false; }
      site := None;
      if f.site == Lost { return false; }
      var doc := GetPolicyDoc(f);
      if doc.None? { return false; }
      var removed := doc.value.RemoveStmt(WEBSITE);
      if !removed { return true; }
      ok := PutPolicyDoc(doc.value, f);
    }

    method GrantBucketAccess(uid: string, p: Permission, f: Faults) returns (ok: bool)
      modifies this`policy
      ensures ok <==> !f.getFails && f.put == Done
      ensures (View(), ok) == After(name, old(View()), GrantAccess(uid, p), f)
    {
      var doc := GetPolicyDoc(f);
      if doc.None? { return false; }
      doc.value.UpsertStmt(BucketStmt(name, uid, p));
      doc.value.UpsertStmt(ObjectStmt(name, uid, p));
      ok := PutPolicyDoc(doc.value, f);
    }

    method RevokeBucketAccess(uid: string, f: Faults) returns (ok: bool)
      modifies this`policy
      ensures ok <==> !f.getFails && f.put == Done
      ensures (View(), ok) == After(name, old(View()), RevokeAccess(uid), f)
    {
      var doc := GetPolicyDoc(f);
      if doc.None? { return false; }
      var a := doc.value.RemoveStmt(GrantSid(uid));
      var b := doc.value.RemoveStmt(ObjectSid(uid));
      ok := PutPolicyDoc(doc.value, f);
    }

    /** `SetBucketPolicyJSON`: blank input (None) clears the customer's statements; a document
        without statements is refused; Stratos Sids in the input are dropped and the live ones
        carried over. */
    method SetBucketPolicy(input: Option<PolicyDoc>, f: Faults) returns (ok: bool)
      modifies this`policy
      ensures ok <==> (input.Some? ==> input.value.stmts != []) && !f.getFails && f.put == Done
      ensures (View(), ok) == After(name, old(View()), ReplacePolicy(input), f)
    {
      var next := new Document(PolicyDoc(VERSION, "", []));
      if input.Some? {
        if |input.value.stmts| == 0 { return false; }
        if input.value.version != "" { next.version := input.value.version; }
        next.id := input.value.id;
        next.stmts := Select(input.value.stmts, false);
      }
      var live := GetPolicyDoc(f);
      if live.None? { return false; }
      var ours := Select(live.value.stmts, true);
      next.stmts := next.stmts + ours;
      ok := PutPolicyDoc(next, f);
    }
  }
}
