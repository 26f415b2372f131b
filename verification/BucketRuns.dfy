/** Whole runs of calls on one bucket, with any remote call failing: they are runs on the policy
    document, and exactly when a published bucket keeps its website configuration. */
module BucketRuns {
  import opened Base
  import opened Policy
  import opened PolicyRuns
  import opened PolicyEditing

  /** A call and the fate of its remote calls. */
  datatype Made = Made(c: Call, f: Faults)

  function AfterAll(name: string, b: Bucket, run: seq<Made>): Bucket
    decreases |run|
  {
    if run == [] then b else AfterAll(name, After(name, b, run[0].c, run[0].f).0, run[1..])
  }

  // ----- calls are events on the document -----

  function EventOf(b: Bucket, m: Made): Event {
    Event(OpOf(m.c), Enters(m.c, m.f) && DocWritten(b, m.c, m.f))
  }

  function EventsOf(name: string, b: Bucket, run: seq<Made>): seq<Event>
    decreases |run|
  {
    if run == [] then [] else [EventOf(b, run[0])] + EventsOf(name, After(name, b, run[0].c, run[0].f).0, run[1..])
  }

  /** What each call asks of the document, and exactly when it is written. */
  lemma CallMeans(b: Bucket, c: Call, f: Faults)
    ensures var e, reached := EventOf(b, Made(c, f)), !f.getFails && f.put != Refused;
      match c
      case EnableSite(_, _) => e == Event(Website(true), f.site == Done && reached)
      case DisableSite => e == Event(Website(false), f.site == Done && reached && Find(StmtsOf(b), "StratosPublicWebsiteRead").Some?)
      case SetPublic(p) => e == Event(Public(p), reached && (p || Find(StmtsOf(b), "StratosPublicRead").Some?))
      case SetRead(p) => e == Event(Public(p), f.acl == Done && reached && (p || Find(StmtsOf(b), "StratosPublicRead").Some?))
      case GrantAccess(u, p) => e == Event(Grant(u, p), reached)
      case RevokeAccess(u) => e == Event(Revoke(u), reached)
      case ReplacePolicy(None) => e == Event(Replace([]), reached)
      case ReplacePolicy(Some(d)) => e == Event(Replace(d.stmts), d.stmts != [] && reached)
  {
    hide Find;
  }

  /** A call edits the stored statements or leaves the policy alone.  A written document keeps its
      id and its version, or gets the current one, the customer's where the customer gives it; and
      a document without statements is no policy. */
  lemma CallIsEvent(name: string, b: Bucket, c: Call, f: Faults)
    ensures var e, b' := EventOf(b, Made(c, f)), After(name, b, c, f).0;
      && StmtsOf(b') == (if e.written then Edit(name, StmtsOf(b), e.op) else StmtsOf(b))
      && (!e.written ==> b'.policy == b.policy)
      && (e.written ==> (b'.policy.Some? <==> Edit(name, StmtsOf(b), e.op) != []))
    ensures var b', d := After(name, b, c, f).0, if c.ReplacePolicy? then c.input else b.policy;
      EventOf(b, Made(c, f)).written && b'.policy.Some? ==>
        && b'.policy.value.id == (if d.Some? then d.value.id else "")
        && b'.policy.value.version == (if d.Some? && d.value.version != "" then d.value.version else "2012-10-17")
  {
    hide Edit;
  }

  lemma {:induction false} CallsAreEvents(name: string, b: Bucket, run: seq<Made>)
    ensures StmtsOf(AfterAll(name, b, run)) == EditAll(name, StmtsOf(b), EventsOf(name, b, run))
    decreases |run|
  {
    hide After, StmtsOf, EventOf, Edit;
    if run != [] {
      CallIsEvent(name, b, run[0].c, run[0].f);
      var next := After(name, b, run[0].c, run[0].f).0;
      CallsAreEvents(name, next, run[1..]);
      assert ([EventOf(b, run[0])] + EventsOf(name, next, run[1..]))[1..] == EventsOf(name, next, run[1..]);
    }
  }

  predicate PlainCalls(run: seq<Made>) {
    forall i :: 0 <= i < |run| ==> Plain(OpOf(run[i].c))
  }

  lemma {:induction false} PlainEvents(name: string, b: Bucket, run: seq<Made>)
    requires PlainCalls(run)
    ensures forall i :: 0 <= i < |EventsOf(name, b, run)| ==> Plain(EventsOf(name, b, run)[i].op)
    decreases |run|
  {
    hide After, Plain;
    if run != [] {
      assert forall i :: 0 <= i < |run[1..]| ==> run[1..][i] == run[i + 1];
      PlainEvents(name, After(name, b, run[0].c, run[0].f).0, run[1..]);
    }
  }

  /** MAIN RESULT.  Whatever calls are made on a bucket without Stratos statements, and whatever of
      their remote calls fail or lose their answers, the stored document refines the record of
      the writes that landed. */
  lemma CallsRefineRecord(name: string, b: Bucket, run: seq<Made>)
    requires Untouched(StmtsOf(b)) && PlainCalls(run)
    ensures Refines(name, StmtsOf(AfterAll(name, b, run)), PerformAll(Before(StmtsOf(b)), EventsOf(name, b, run)))
  {
    hide StmtsOf, Refines, Plain;
    CallsAreEvents(name, b, run);
    PlainEvents(name, b, run);
    DocumentRefinesRecord(name, StmtsOf(b), EventsOf(name, b, run));
  }

  // ----- a published bucket and its website configuration -----

  /** The statement that publishes the website's objects is stored. */
  predicate Published(b: Bucket) {
    Find(StmtsOf(b), WEBSITE).Some?
  }

  predicate Configured(b: Bucket) {
    Published(b) ==> b.site.Some?
  }

  /** The calls that can leave the statement without a configuration: an enable whose policy write
      fails, and whose rollback lands, on a bucket that was published before or is now all the
      same; and a disable of a published bucket whose statement is not taken out. */
  predicate KeepsSite(b: Bucket, c: Call, f: Faults) {
    match c
    case EnableSite(_, _) =>
      f.site == Done && !DocDone(b, c, f) && Landed(f.rollback) ==> !Published(b) && !DocWritten(b, c, f)
    case DisableSite => Landed(f.site) && Published(b) ==> f.site == Done && DocWritten(b, c, f)
    case _ => true
  }

  lemma PublishedIs(name: string, b: Bucket, r: Record)
    requires Refines(name, StmtsOf(b), r)
    ensures Published(b) <==> r.website
  {
    WebsiteIsStratos();
  }

  lemma StepPublishes(name: string, b: Bucket, r: Record, c: Call, f: Faults) returns (r': Record)
    requires Refines(name, StmtsOf(b), r) && PlainGrants(r) && Plain(OpOf(c))
    ensures Refines(name, StmtsOf(After(name, b, c, f).0), r') && PlainGrants(r')
    ensures r' == if EventOf(b, Made(c, f)).written then Perform(r, OpOf(c)) else r
  {
    hide After, StmtsOf, EventOf, OpOf, Refines, Edit, Perform;
    CallIsEvent(name, b, c, f);
    if EventOf(b, Made(c, f)).written {
      StepRefines(name, StmtsOf(b), r, OpOf(c));
      r' := Perform(r, OpOf(c));
    } else {
      r' := r;
    }
    assert EventOf(b, Made(c, f)).op == OpOf(c) by { EventOp(b, c, f); }
  }

  lemma EventOp(b: Bucket, c: Call, f: Faults)
    ensures EventOf(b, Made(c, f)).op == OpOf(c)
  {
  }

  lemma StepConfigured(name: string, b: Bucket, r: Record, c: Call, f: Faults) returns (r': Record)
    requires Refines(name, StmtsOf(b), r) && PlainGrants(r) && Plain(OpOf(c)) && Configured(b)
    ensures Refines(name, StmtsOf(After(name, b, c, f).0), r') && PlainGrants(r')
    ensures Configured(After(name, b, c, f).0) <==> KeepsSite(b, c, f)
  {
    r' := StepPublishes(name, b, r, c, f);
    PublishedIs(name, b, r);
    PublishedIs(name, After(name, b, c, f).0, r');
    hide Published, Refines, Edit, StmtsOf, Writes;
    assert c.DisableSite? ==> (Writes(StmtsOf(b), c) <==> Published(b)) by { DisableWrites(b); }
    if c.EnableSite? { EnableWrites(StmtsOf(b), c); }
  }

  lemma DisableWrites(b: Bucket)
    ensures Writes(StmtsOf(b), DisableSite) <==> Published(b)
  {
  }

  lemma EnableWrites(stmts: seq<Stmt>, c: Call)
    requires c.EnableSite?
    ensures Writes(stmts, c)
  {
  }

  predicate AlwaysConfigured(name: string, b: Bucket, run: seq<Made>)
    decreases |run|
  {
    Configured(b) && (run == [] || AlwaysConfigured(name, After(name, b, run[0].c, run[0].f).0, run[1..]))
  }

  predicate AllKeepSite(name: string, b: Bucket, run: seq<Made>)
    decreases |run|
  {
    run == [] || (KeepsSite(b, run[0].c, run[0].f) && AllKeepSite(name, After(name, b, run[0].c, run[0].f).0, run[1..]))
  }

  lemma {:induction false} RunConfigured(name: string, b: Bucket, r: Record, run: seq<Made>)
    requires Refines(name, StmtsOf(b), r) && PlainGrants(r) && PlainCalls(run) && Configured(b)
    ensures AlwaysConfigured(name, b, run) <==> AllKeepSite(name, b, run)
    decreases |run|
  {
    hide After, StmtsOf, Refines, Configured, KeepsSite, Plain, OpOf, PlainGrants;
    if run != [] {
      assert forall i :: 0 <= i < |run[1..]| ==> run[1..][i] == run[i + 1];
      var next := After(name, b, run[0].c, run[0].f).0;
      var r' := StepConfigured(name, b, r, run[0].c, run[0].f);
      if Configured(next) {
        RunConfigured(name, next, r', run[1..]);
      }
    }
  }

  /** MAIN RESULT.  Over every run of calls on a bucket without Stratos statements, a published
      bucket has a website configuration at every moment if and only if no call of the run was an
      enable or a disable that failed half way on a published bucket. */
  lemma PublishedIsConfigured(name: string, b: Bucket, run: seq<Made>)
    requires Untouched(StmtsOf(b)) && PlainCalls(run)
    ensures AlwaysConfigured(name, b, run) <==> AllKeepSite(name, b, run)
  {
    UntouchedRefines(name, StmtsOf(b));
    PublishedIs(name, b, Before(StmtsOf(b)));
    RunConfigured(name, b, Before(StmtsOf(b)), run);
  }

  // ----- half-done calls -----

  const SMOOTH: Faults := Faults(false, Done, Done, Done, Done)

  /** A website is enabled, and enabled again with a policy write that is refused: the rollback
      deletes the configuration and the objects stay published. */
  lemma EnableAgainStrips(name: string, index: string, error: string)
    ensures var run := [Made(EnableSite(index, error), SMOOTH), Made(EnableSite(index, error), SMOOTH.(put := Refused))];
      var z := AfterAll(name, Bucket(None, None, false), run);
      Published(z) && z.site.None? && z.policy == Some(PolicyDoc(VERSION, "", [AnonymousRead(name, WEBSITE)]))
  {
    var on, again := Made(EnableSite(index, error), SMOOTH), Made(EnableSite(index, error), SMOOTH.(put := Refused));
    OnceEnabled(name, index, error);
    var y := After(name, Bucket(None, None, false), on.c, on.f).0;
    Twice(name, Bucket(None, None, false), on, again);
    assert After(name, y, again.c, again.f).0 == y.(site := None);
  }

  /** A website is enabled, and disabled with a policy write that is refused: the configuration is
      gone and the objects stay published. */
  lemma DisableStrips(name: string, index: string, error: string)
    ensures var run := [Made(EnableSite(index, error), SMOOTH), Made(DisableSite, SMOOTH.(put := Refused))];
      var z := AfterAll(name, Bucket(None, None, false), run);
      Published(z) && z.site.None?
  {
    var on, off := Made(EnableSite(index, error), SMOOTH), Made(DisableSite, SMOOTH.(put := Refused));
    OnceEnabled(name, index, error);
    var y := After(name, Bucket(None, None, false), on.c, on.f).0;
    Twice(name, Bucket(None, None, false), on, off);
    assert After(name, y, off.c, off.f).0 == y.(site := None);
  }

  lemma OnceEnabled(name: string, index: string, error: string)
    ensures var y := After(name, Bucket(None, None, false), EnableSite(index, error), SMOOTH).0;
      && y == Bucket(Some(PolicyDoc(VERSION, "", [AnonymousRead(name, WEBSITE)])), Some(SiteOf(index, error)), false)
      && Published(y)
  {
    var s := AnonymousRead(name, WEBSITE);
    assert Upsert([], s) == [s];
    assert Find([s], WEBSITE) == Some(s);
  }

  lemma Twice(name: string, b: Bucket, m: Made, n: Made)
    ensures AfterAll(name, b, [m, n]) == After(name, After(name, b, m.c, m.f).0, n.c, n.f).0
  {
    hide After;
    assert [m, n][1..] == [n] && [n][1..] == [];
    var y := After(name, b, m.c, m.f).0;
    assert AfterAll(name, y, [n]) == AfterAll(name, After(name, y, n.c, n.f).0, []);
  }
}
