/** What one sweep step does to a database, effect by effect, and when a marker goes away. */
module NetShareSweeps {
  import opened NetShare
  import opened NetShareRuns

  /** Half an hour old, without an Application, its load balancer gone. */
  predicate Orphan(c: Cloud, id: Id, rec: Marker) {
    c.now - rec.created >= 1800 && id !in c.apps && id !in c.lbs
  }

  /** Another database of the network is live, or its marker is young or backed by an Application. */
  predicate Needed(c: Cloud, net: Net, id: Id) {
    || (exists d :: d in c.apps && d != id && !c.apps[d].terminating && c.apps[d].net == net)
    || (exists d :: d in c.markers && d != id && c.markers[d].net == net && (c.now - c.markers[d].created < 1800 || d in c.apps))
  }

  /** The marker records a network that nothing else needs. */
  predicate Revocable(c: Cloud, id: Id, rec: Marker) {
    rec.net != "" && !Needed(c, rec.net, id)
  }

  /** An orphan is reaped unless something goes wrong; a share that is not to be revoked cannot
      fail to be. */
  predicate Reaps(c: Cloud, id: Id, rec: Marker, fault: Fault) {
    Orphan(c, id, rec) && fault !in {ReadFails, AuthDeleteFails, MarkerDeleteFails} && (Revocable(c, id, rec) ==> fault == NoFault)
  }

  lemma NeededIsInUse(c: Cloud, net: Net, id: Id)
    ensures Needed(c, net, id) <==> InUse(c, net, id)
  {
  }

  /** The effect on every kind of object, each with its exact condition. */
  lemma FinalizeExactly(w: World, p: nat, id: Id, fault: Fault)
    requires Enabled(w, Finalize(p, id, fault))
    ensures var c, c', rec := w.cloud, Next(w, Finalize(p, id, fault)).cloud, w.hist[id];
      && c' == c.(markers := c'.markers, auths := c'.auths, shares := c'.shares)
      && c'.markers == (if Reaps(c, id, rec, fault) then c.markers - {id} else c.markers)
      && c'.auths == (if Orphan(c, id, rec) && fault !in {ReadFails, AuthDeleteFails} && (Revocable(c, id, rec) ==> fault in {NoFault, MarkerDeleteFails})
                      then c.auths - {id} else c.auths)
      && c'.shares == (if Orphan(c, id, rec) && Revocable(c, id, rec) && fault !in {ReadFails, NoRevoker, RevokeFails} then c.shares - {rec.net} else c.shares)
  {
    hide InUse, Needed;
    NeededIsInUse(w.cloud, w.hist[id].net, id);
  }

  /** What the pass counts: it stops at a read that fails; else the marker is reaped, or found in
      use, or pending. */
  lemma PassCounts(w: World, p: nat, id: Id, fault: Fault)
    requires Enabled(w, Finalize(p, id, fault))
    ensures var c, rec, q, w' := w.cloud, w.hist[id], w.passes[p], Next(w, Finalize(p, id, fault));
      var reaped, found := Reaps(c, id, rec, fault), c.now - rec.created >= 1800 && id in c.apps && !c.apps[id].terminating;
      w'.passes == if c.now - rec.created >= 1800 && fault == ReadFails then w.passes - {p}
                   else w.passes[p := Pass(q.known, q.listed, q.todo - {id}, if found then q.alive + {id} else q.alive,
                                           if reaped || found then q.pending else q.pending + 1, if reaped then q.reaped + 1 else q.reaped)]
  {
    hide InUse, Needed;
    NeededIsInUse(w.cloud, w.hist[id].net, id);
  }

  /** While its load balancer is there, finalizing a database changes nothing and reaps nothing,
      whatever else goes wrong. */
  lemma BalancerHolds(w: World, p: nat, id: Id, fault: Fault)
    requires Enabled(w, Finalize(p, id, fault)) && id in w.cloud.lbs
    ensures var w' := Next(w, Finalize(p, id, fault));
      w'.cloud == w.cloud && (p in w'.passes ==> w'.passes[p].reaped == w.passes[p].reaped)
  {
  }

  /** The end of a pass: the namespace goes only when the pass reaped something, left nothing
      pending, and no Application and no foreign secret remains; and then with every secret. */
  lemma GcExactly(w: World, p: nat, managed: bool, foreign: bool)
    requires Enabled(w, Gc(p, managed, foreign))
    ensures var c, q, c' := w.cloud, w.passes[p], Next(w, Gc(p, managed, foreign)).cloud;
      c' == if q.reaped > 0 && q.pending == 0 && c.apps == map[] && managed && !foreign
            then Cloud(c.now, map[], {}, {}, map[], c.lbs, c.shares) else c
  {
  }

  // ----- when a marker goes away -----

  /** A load balancer is that of a database whose share step is done, or was there at the start. */
  ghost predicate Balanced(start: World, w: World) {
    forall id :: id in w.cloud.lbs ==> id in start.cloud.lbs || id in w.shared
  }

  lemma StepBalanced(start: World, w: World, s: Step)
    requires Inv(w) && Balanced(start, w) && Enabled(w, s)
    ensures Balanced(start, Next(w, s))
  {
    hide Visit, Protected, PassesOk, InUse;
    if s.Finalize? { VisitEffect(w.cloud, s.id, w.hist[s.id], s.fault); }
  }

  lemma {:induction false} RunBalanced(start: World, w: World, steps: seq<Step>)
    requires Inv(w) && Balanced(start, w) && IsRun(w, steps)
    ensures Inv(After(w, steps)) && Balanced(start, After(w, steps))
    decreases |steps|
  {
    hide Inv, Balanced, Next, Enabled;
    if steps != [] {
      StepKeeps(w, steps[0]);
      StepBalanced(start, w, steps[0]);
      RunBalanced(start, Next(w, steps[0]), steps[1..]);
    }
  }

  /** MAIN RESULT.  At any point of any run a marker goes away in one of three ways: its own share
      step failed and rolled it back; a sweep took its database for an orphan, with its load
      balancer gone; or the namespace was deleted.  So while the load balancer is up it goes only
      with the namespace, except where a load balancer of that name was there before the run. */
  lemma MarkerGoesAway(w: World, steps: seq<Step>, s: Step, id: Id)
    requires Initial(w) && IsRun(w, steps) && Enabled(After(w, steps), s)
    requires id in After(w, steps).cloud.markers && id !in Next(After(w, steps), s).cloud.markers
    ensures var z := After(w, steps);
      && ((s.ShareFails? && s.id == id && s.rolledBack)
          || (s.Finalize? && s.id == id && Reaps(z.cloud, id, z.cloud.markers[id], s.fault))
          || (s.Gc? && Next(z, s).cloud.markers == map[] && z.cloud.apps == map[] && z.passes[s.p].reaped > 0))
      && (id in z.cloud.lbs ==> s.Gc? || (s.ShareFails? && s.id == id && id in w.cloud.lbs))
  {
    InitialInv(w);
    RunBalanced(w, w, steps);
    var z := After(w, steps);
    hide IsRun, After, Visit, Reaps, Protected, PassesOk, Tracked;
    if s.Finalize? { FinalizeExactly(z, s.p, s.id, s.fault); ReapsOrphan(z.cloud, id, z.cloud.markers[id], s.fault); }
  }

  lemma ReapsOrphan(c: Cloud, id: Id, rec: Marker, fault: Fault)
    ensures Reaps(c, id, rec, fault) ==> id !in c.lbs && id !in c.apps
  {
  }

  // ----- every database can be finished -----

  /** The Application goes: the delete, and then the cascade with the load balancer. */
  lemma Removal(w: World, id: Id) returns (steps: seq<Step>)
    ensures IsRun(w, steps)
    ensures var z := After(w, steps);
      z == w.(cloud := w.cloud.(apps := w.cloud.apps - {id}, lbs := w.cloud.lbs - {id}))
  {
    hide IsRun, After;
    NoSteps(w);
    steps := [];
    if id in w.cloud.apps {
      steps := Do(w, steps, w, Delete(id));
      steps := Do(w, steps, After(w, steps), CascadeDone(id));
    }
    steps := Do(w, steps, After(w, steps), LbDown(id));
    assert w.cloud.apps - {id} == if id in w.cloud.apps then w.cloud.apps - {id} else w.cloud.apps;
  }

  /** MAIN RESULT.  Whatever has happened to a database, a half-finished create included, there is a
      way to finish it from any state: its Application deleted, its cascade and half an hour later
      one sweep leaves nothing of it, touches no other database, and takes its share unless
      another one needs the network. */
  lemma Converges(w: World, id: Id, p: nat) returns (steps: seq<Step>)
    requires Inv(w) && id in w.cloud.markers
    ensures IsRun(w, steps)
    ensures var c, z := w.cloud, After(w, steps).cloud;
      && z.markers == c.markers - {id} && z.auths == c.auths - {id} && z.apps == c.apps - {id} && z.lbs == c.lbs - {id}
      && z.shares == (if Needed(z, c.markers[id].net, id) then c.shares else c.shares - {c.markers[id].net})
  {
    var rec := w.hist[id];
    assert rec == w.cloud.markers[id] && rec.net != "" && rec.created <= w.cloud.now;
    hide IsRun, After, Inv, Needed, Visit;
    steps := Removal(w, id);
    steps := Do(w, steps, After(w, steps), Tick(1800));
    steps := Do(w, steps, After(w, steps), List(p));
    var y := After(w, steps);
    assert Orphan(y.cloud, id, rec) && y.hist == w.hist;
    FinalizeExactly(y, p, id, NoFault);
    steps := Do(w, steps, y, Finalize(p, id, NoFault));
    var z := After(w, steps);
    assert z.cloud == y.cloud.(markers := y.cloud.markers - {id}, auths := y.cloud.auths - {id}, shares := z.cloud.shares);
    OwnRecordsAside(y.cloud, z.cloud, rec.net, id);
  }

  lemma OwnRecordsAside(c: Cloud, c': Cloud, net: Net, id: Id)
    requires c'.now == c.now && c'.apps == c.apps && c'.markers == c.markers - {id}
    ensures Needed(c', net, id) <==> Needed(c, net, id)
  {
    assert forall d :: d != id ==> (d in c'.markers <==> d in c.markers) && (d in c.markers ==> c'.markers[d] == c.markers[d]);
  }

  // ----- what the histories tell -----

  /** Some step of the run is a share step of the database that found its network unshared. */
  predicate MakesShare(w: World, steps: seq<Step>, id: Id)
    requires IsRun(w, steps)
    decreases |steps|
  {
    steps != [] && ((steps[0] == Share(id) && w.hist[id].net !in w.cloud.shares) || MakesShare(Next(w, steps[0]), steps[1..], id))
  }

  lemma HistoryStep(w: World, s: Step, id: Id)
    requires Enabled(w, s)
    ensures var z := Next(w, s);
      && (id in z.shared <==> id in w.shared || s == Share(id))
      && (id in z.abandoned <==> id in w.abandoned || (s.Fails? && s.id == id))
      && (id in z.made <==> id in w.made || (s == Share(id) && w.hist[id].net !in w.cloud.shares))
  {
    hide Visit, InUse, Collects;
  }

  /** The histories are what their names say: the databases whose share step succeeded, those of them
      that made the share, and those whose create reported an error after it. */
  lemma {:induction false} HistoriesTell(w: World, steps: seq<Step>, id: Id)
    requires IsRun(w, steps)
    ensures var z := After(w, steps);
      && (id in z.shared <==> id in w.shared || Share(id) in steps)
      && (id in z.abandoned <==> id in w.abandoned || exists s :: s in steps && s.Fails? && s.id == id)
      && (id in z.made <==> id in w.made || MakesShare(w, steps, id))
    decreases |steps|
  {
    hide Next, Enabled;
    if steps != [] {
      HistoryStep(w, steps[0], id);
      HistoriesTell(Next(w, steps[0]), steps[1..], id);
      assert steps == [steps[0]] + steps[1..];
      assert forall s :: s in steps <==> s == steps[0] || s in steps[1..];
    }
  }
}
