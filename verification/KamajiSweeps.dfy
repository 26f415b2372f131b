/** What one sweep step does to a Kubernetes cluster's secret and credential, effect by effect. */
module KamajiSweeps {
  import opened Kamaji
  import opened KamajiRuns

  /** Half an hour old, without an Application, a control plane under its name or its label, or a
      machine deployment. */
  predicate Orphan(c: Cloud, id: Id, rec: Secret) {
    && c.now - rec.created >= 1800 && id !in c.apps
    && (forall name :: name in c.planes ==> name != id + "-kamaji-cp" && c.planes[name] != id)
    && (id in c.machines ==> c.machines[id] == 0)
  }

  /** An orphan is reaped unless something goes wrong; a credential that was never recorded cannot
      fail to be revoked. */
  predicate Reaps(c: Cloud, id: Id, rec: Secret, fault: Fault) {
    Orphan(c, id, rec) && fault !in {ReadFails, DeleteFails} && (rec.cred != "" ==> fault == NoFault)
  }

  lemma OrphanHasNothing(c: Cloud, id: Id, rec: Secret)
    ensures Orphan(c, id, rec) <==> !Young(c, rec) && !Remains(c, id)
  {
    forall name | name in c.planes ensures IsPlaneOf(c, name, id) <==> name == id + "-kamaji-cp" || c.planes[name] == id {}
  }

  /** The effect on every kind of object, each with its exact condition. */
  lemma FinalizeExactly(w: World, p: nat, id: Id, fault: Fault)
    requires Enabled(w, Finalize(p, id, fault))
    ensures var c, c', rec := w.cloud, Next(w, Finalize(p, id, fault)).cloud, w.hist[id];
      && c' == c.(secrets := c'.secrets, revoked := c'.revoked)
      && c'.secrets == (if Reaps(c, id, rec, fault) then c.secrets - {id} else c.secrets)
      && c'.revoked == (if Orphan(c, id, rec) && rec.cred != "" && fault !in {ReadFails, NoRevoker, RevokeFails} then c.revoked + {rec.cred} else c.revoked)
  {
    hide HasControlPlane, Orphan;
    OrphanHasNothing(w.cloud, id, w.hist[id]);
  }

  /** What the pass counts: it stops at a read that fails; else the secret is reaped, or found in
      use, or pending. */
  lemma PassCounts(w: World, p: nat, id: Id, fault: Fault)
    requires Enabled(w, Finalize(p, id, fault))
    ensures var c, rec, q, w' := w.cloud, w.hist[id], w.passes[p], Next(w, Finalize(p, id, fault));
      var reaped, found := Reaps(c, id, rec, fault), c.now - rec.created >= 1800 && id in c.apps && !c.apps[id];
      w'.passes == if c.now - rec.created >= 1800 && fault == ReadFails then w.passes - {p}
                   else w.passes[p := Pass(q.known, q.listed, q.todo - {id}, if found then q.alive + {id} else q.alive,
                                           if reaped || found then q.pending else q.pending + 1, if reaped then q.reaped + 1 else q.reaped)]
  {
    hide HasControlPlane, Orphan;
    OrphanHasNothing(w.cloud, id, w.hist[id]);
  }

  /** The end of a pass: the namespace goes only when the pass reaped something, left nothing
      pending, and no Application, control plane, machine or foreign secret remains. */
  lemma GcExactly(w: World, p: nat, managed: bool, foreign: bool)
    requires Enabled(w, Gc(p, managed, foreign))
    ensures var c, q, c' := w.cloud, w.passes[p], Next(w, Gc(p, managed, foreign)).cloud;
      c' == if q.reaped > 0 && q.pending == 0 && c.apps == map[] && c.planes == map[] && (forall d :: d in c.machines ==> c.machines[d] == 0) && managed && !foreign
            then Cloud(c.now, map[], map[], map[], c.machines, c.revoked) else c
  {
  }

  /** MAIN RESULT.  At any point of any run a cluster's secret goes away in one of two ways: a sweep
      found nothing of the cluster left and revoked the credential first, or the namespace was
      deleted, with no Application, control plane or machine in it. */
  lemma SecretGoesAway(w: World, steps: seq<Step>, s: Step, id: Id)
    requires Initial(w) && IsRun(w, steps) && Enabled(After(w, steps), s)
    requires id in After(w, steps).cloud.secrets && id !in Next(After(w, steps), s).cloud.secrets
    ensures var z, z' := After(w, steps), Next(After(w, steps), s);
      && !Remains(z.cloud, id)
      && ((s.Finalize? && s.id == id && Reaps(z.cloud, id, z.cloud.secrets[id], s.fault)
           && (z.cloud.secrets[id].cred != "" ==> z.cloud.secrets[id].cred in z'.cloud.revoked))
          || (s.Gc? && z'.cloud.secrets == map[] && z.cloud.apps == map[] && z.passes[s.p].reaped > 0))
  {
    RunKeeps(w, steps);
    var z := After(w, steps);
    if s.Gc? {
      GcExactly(z, s.p, s.managed, s.foreign);
      NothingRemains(z.cloud, id);
    } else {
      assert id in z.hist && z.hist[id] == z.cloud.secrets[id];
      OnlyFinalize(z, s, id);
      hide IsRun, After, Next, Inv, Remains, Orphan;
      FinalizeExactly(z, s.p, s.id, s.fault);
      OrphanHasNothing(z.cloud, id, z.cloud.secrets[id]);
    }
  }

  lemma OnlyFinalize(w: World, s: Step, id: Id)
    requires Enabled(w, s) && id in w.cloud.secrets && id !in Next(w, s).cloud.secrets && !s.Gc?
    ensures s.Finalize? && s.id == id
  {
  }

  lemma NothingRemains(c: Cloud, id: Id)
    requires c.apps == map[] && c.planes == map[] && forall d :: d in c.machines ==> c.machines[d] == 0
    ensures !Remains(c, id)
  {
  }

  // ----- every cluster can be finished -----

  /** The control planes of a cluster go one by one. */
  lemma {:induction false} PlanesGo(w: World, names: seq<string>) returns (steps: seq<Step>)
    ensures IsRun(w, steps) && After(w, steps) == w.(cloud := w.cloud.(planes := w.cloud.planes - set name | name in names))
  {
    hide IsRun, After;
    if names == [] {
      NoSteps(w);
      steps := [];
      assert w.cloud.planes - (set name | name in names) == w.cloud.planes;
    } else {
      var front, last := names[..|names| - 1], names[|names| - 1];
      steps := PlanesGo(w, front);
      steps := Do(w, steps, After(w, steps), ControlPlaneDown(last));
      assert names == front + [last];
      assert w.cloud.planes - (set name | name in names) == w.cloud.planes - (set name | name in front) - {last};
    }
  }

  lemma {:induction false} Listing(names: set<string>) returns (list: seq<string>)
    ensures (set name | name in list) == names
  {
    if names == {} {
      list := [];
    } else {
      var name :| name in names;
      var rest := Listing(names - {name});
      list := rest + [name];
      assert (set x | x in list) == (set x | x in rest) + {name};
    }
  }

  /** The Application goes, and with it the control planes and the machines. */
  lemma Removal(w: World, id: Id) returns (steps: seq<Step>)
    ensures IsRun(w, steps) && !Remains(After(w, steps).cloud, id)
    ensures var c, z := w.cloud, After(w, steps);
      z == w.(cloud := c.(apps := c.apps - {id}, planes := z.cloud.planes, machines := z.cloud.machines))
  {
    hide IsRun, After;
    NoSteps(w);
    steps := [];
    if id in w.cloud.apps {
      steps := Do(w, steps, w, Delete(id));
      steps := Do(w, steps, After(w, steps), CascadeDone(id));
    }
    var y := After(w, steps);
    assert y == w.(cloud := w.cloud.(apps := w.cloud.apps - {id}));
    if HasMachines(y.cloud, id) { steps := Do(w, steps, y, Machines(id, 0)); }
    var x := After(w, steps);
    assert !HasMachines(x.cloud, id) && x == w.(cloud := w.cloud.(apps := w.cloud.apps - {id}, machines := x.cloud.machines));
    hide HasMachines;
    var more := NoPlanesLeft(x, id);
    steps := Joined(w, steps, x, more);
    SameMachines(x.cloud, After(w, steps).cloud, id);
  }

  lemma SameMachines(c: Cloud, c': Cloud, id: Id)
    requires c'.machines == c.machines
    ensures HasMachines(c', id) <==> HasMachines(c, id)
  {
  }

  lemma NoPlanesLeft(w: World, id: Id) returns (steps: seq<Step>)
    ensures IsRun(w, steps) && !HasControlPlane(After(w, steps).cloud, id)
    ensures After(w, steps) == w.(cloud := w.cloud.(planes := After(w, steps).cloud.planes))
  {
    hide IsRun, After;
    var own := set name | name in w.cloud.planes && IsPlaneOf(w.cloud, name, id);
    var names := Listing(own);
    steps := PlanesGo(w, names);
    assert After(w, steps).cloud.planes == w.cloud.planes - own;
  }

  lemma {:induction false} Joined(w: World, steps: seq<Step>, z: World, more: seq<Step>) returns (all: seq<Step>)
    requires IsRun(w, steps) && After(w, steps) == z && IsRun(z, more)
    ensures IsRun(w, all) && After(w, all) == After(z, more)
    decreases |more|
  {
    if more == [] {
      all := steps;
    } else {
      hide Next, Enabled;
      var longer := Do(w, steps, z, more[0]);
      all := Joined(w, longer, Next(z, more[0]), more[1..]);
    }
  }

  /** MAIN RESULT.  From any state a cluster can be finished: its Application deleted, its cascade and
      half an hour later one sweep revokes its credential, reaps its secret and touches no other. */
  lemma Converges(w: World, id: Id, p: nat) returns (steps: seq<Step>)
    requires Inv(w) && id in w.cloud.secrets
    ensures IsRun(w, steps)
    ensures var c, z := w.cloud, After(w, steps).cloud;
      && z.secrets == c.secrets - {id} && z.apps == c.apps - {id} && !Remains(z, id)
      && z.revoked == (if c.secrets[id].cred == "" then c.revoked else c.revoked + {c.secrets[id].cred})
  {
    var rec := w.hist[id];
    assert rec == w.cloud.secrets[id];
    steps := Removal(w, id);
    var late := if w.cloud.now - rec.created >= 1800 then 0 else 1800 - (w.cloud.now - rec.created);
    hide IsRun, After, Inv, Visit, Remains;
    var x := After(w, steps);
    steps := Do(w, steps, x, Tick(late));
    steps := Do(w, steps, After(w, steps), List(p));
    var y := After(w, steps);
    SameRemains(x.cloud, y.cloud);
    assert y.cloud == x.cloud.(now := x.cloud.now + late) && y.hist == w.hist && p in y.passes && y.passes[p].todo == x.cloud.secrets.Keys;
    steps := Do(w, steps, y, Finalize(p, id, NoFault));
    Swept(y, id, p);
  }

  lemma Swept(w: World, id: Id, p: nat)
    requires Enabled(w, Finalize(p, id, NoFault)) && !Young(w.cloud, w.hist[id]) && !Remains(w.cloud, id)
    ensures var c, z := w.cloud, Next(w, Finalize(p, id, NoFault)).cloud;
      && z == c.(secrets := c.secrets - {id}, revoked := if w.hist[id].cred == "" then c.revoked else c.revoked + {w.hist[id].cred})
      && !Remains(z, id)
  {
    OrphanHasNothing(w.cloud, id, w.hist[id]);
    FinalizeExactly(w, p, id, NoFault);
    SameRemains(w.cloud, Next(w, Finalize(p, id, NoFault)).cloud);
    hide Visit, Remains, Orphan;
  }
}
