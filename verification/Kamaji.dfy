/** Managed Kubernetes clusters on the management cluster: the cloud secret that carries each
    cluster's credential and outlives its Application, and the sweep that revokes the
    credential and reaps the secret once the cascade is over. */
module Kamaji {
  import opened Base

  type Id = string
  type Cred = string

  const GRACE: int := 1800

  /** A cloud secret: the application credential it records ("" for none) and its age. */
  datatype Secret = Secret(cred: Cred, created: int)

  /** Control plane objects by name, each with the cluster label its provider stamped on it
      ("" for none). */
  datatype Cloud = Cloud(
    now: int,
    secrets: map<Id, Secret>,
    apps: map<Id, bool>,        // true while terminating
    planes: map<string, Id>,
    machines: map<Id, nat>,
    revoked: set<Cred>
  )

  predicate Young(c: Cloud, m: Secret) {
    c.now - m.created < GRACE
  }

  function ControlPlaneName(id: Id): string {
    id + "-kamaji-cp"
  }

  /** The chart names a cluster's control plane after it; otherwise its label tells. */
  predicate IsPlaneOf(c: Cloud, name: string, id: Id) {
    name in c.planes && (name == ControlPlaneName(id) || c.planes[name] == id)
  }

  predicate HasControlPlane(c: Cloud, id: Id) {
    exists name :: name in c.planes && IsPlaneOf(c, name, id)
  }

  predicate HasMachines(c: Cloud, id: Id) {
    id in c.machines && c.machines[id] > 0
  }

  /** Something of the cluster is still there and authenticates with the secret. */
  predicate Remains(c: Cloud, id: Id) {
    id in c.apps || HasControlPlane(c, id) || HasMachines(c, id)
  }

  datatype Fault = NoFault | ReadFails | NoRevoker | RevokeFails | RevokeLost | DeleteFails

  datatype Outcome = Alive | Pending | Reaped | Aborted

  /** One iteration of `finalizeNamespace` for a secret as it was listed. */
  function Visit(c: Cloud, id: Id, rec: Secret, fault: Fault): (Cloud, Outcome) {
    if Young(c, rec) then (c, Pending)
    else if fault == ReadFails then (c, Aborted)
    else if id in c.apps then (c, if c.apps[id] then Pending else Alive)
    else if HasControlPlane(c, id) || HasMachines(c, id) then (c, Pending)
    else if rec.cred != "" && (fault == NoRevoker || fault == RevokeFails) then (c, Pending)
    else
      var c1 := if rec.cred != "" then c.(revoked := c.revoked + {rec.cred}) else c;
      if rec.cred != "" && fault == RevokeLost then (c1, Pending)
      else if fault == DeleteFails then (c1, Pending)
      else (c1.(secrets := c1.secrets - {id}), Reaped)
  }

  datatype Tally = Tally(cloud: Cloud, pending: nat, reaped: nat, aborted: bool)

  function SweepAll(c: Cloud, ids: seq<Id>, recs: map<Id, Secret>, faults: Id -> Fault): Tally
    requires forall id :: id in ids ==> id in recs
  {
    if ids == [] then Tally(c, 0, 0, false)
    else
      var last := ids[|ids| - 1];
      var t := SweepAll(c, ids[..|ids| - 1], recs, faults);
      if t.aborted then t
      else
        var (c', o) := Visit(t.cloud, last, recs[last], faults(last));
        Tally(c', if o == Pending then t.pending + 1 else t.pending, if o == Reaped then t.reaped + 1 else t.reaped, o == Aborted)
  }

  lemma {:induction false} AbortStays(c: Cloud, ids: seq<Id>, recs: map<Id, Secret>, faults: Id -> Fault, i: nat)
    requires forall id :: id in ids ==> id in recs
    requires i <= |ids| && SweepAll(c, ids[..i], recs, faults).aborted
    ensures SweepAll(c, ids, recs, faults) == SweepAll(c, ids[..i], recs, faults)
    decreases |ids|
  {
    if i == |ids| {
      assert ids[..i] == ids;
    } else {
      var front := ids[..|ids| - 1];
      assert front[..i] == ids[..i];
      AbortStays(c, front, recs, faults, i);
    }
  }

  /** The guards of `finalizeNamespace` and `gcNamespace` before the namespace is deleted. */
  predicate Collects(c: Cloud, pending: nat, reaped: nat, managed: bool, foreign: bool) {
    && reaped > 0 && pending == 0 && c.apps == map[] && managed && !foreign
    && c.planes == map[] && (forall id :: id in c.machines ==> c.machines[id] == 0)
  }

  /** What can go wrong at the end of a pass: one of the reads before the deletion of the
      namespace, the deletion, or only its answer. */
  datatype EndFault = EndOk | EndReadFails | EndDeleteFails | EndDeleteLost

  predicate EndLands(end: EndFault) {
    end == EndOk || end == EndDeleteLost
  }

  /** Deleting the namespace takes every secret in it. */
  function Emptied(c: Cloud): Cloud {
    c.(secrets := map[])
  }

  /** What a create leaves behind. */
  function Created(c: Cloud, id: Id, cred: Cred, secretFails: bool, appFails: bool): Cloud {
    c.(secrets := if secretFails then c.secrets else c.secrets[id := Secret(cred, c.now)],
       apps := if secretFails || appFails then c.apps else c.apps[id := false])
  }

  /** What can go wrong with a delete; a lost answer hides a delete that happened. */
  datatype DeleteFault = DeleteOk | GetFails | DeleteRefused | DeleteLost

  // ----- the cluster as the service drives it -----

  class ManagementCluster {
    var now: int
    var secrets: map<Id, Secret>
    var apps: map<Id, bool>
    var planes: map<string, Id>
    var machines: map<Id, nat>
    var revoked: set<Cred>

    constructor (c: Cloud)
      ensures View() == c
    {
      now, secrets, apps, planes, machines, revoked := c.now, c.secrets, c.apps, c.planes, c.machines, c.revoked;
    }

    ghost function View(): Cloud
      reads this
    {
      Cloud(now, secrets, apps, planes, machines, revoked)
    }

    /** The secret first, then the Application. */
    method CreateCluster(id: Id, cred: Cred, secretFails: bool, appFails: bool) returns (ok: bool)
      modifies this
      ensures ok <==> !secretFails && !appFails
      ensures View() == Created(old(View()), id, cred, secretFails, appFails)
    {
      ok := false;
      if secretFails { return; }
      secrets := secrets[id := Secret(cred, now)];
      if appFails { return; }
      apps := apps[id := false];
      ok := true;
    }

    /** Deletes the Application only, and only one that carries the service's own labels; the
        secret stays for the cascade.  An absent Application is no error. */
    method DeleteCluster(id: Id, owned: bool, fault: DeleteFault) returns (ok: bool)
      modifies this
      ensures ok <==> fault != GetFails && (id in old(apps) ==> owned && fault == DeleteOk)
      ensures apps == if id in old(apps) && owned && (fault == DeleteOk || fault == DeleteLost) then old(apps)[id := true] else old(apps)
      ensures View() == old(View()).(apps := apps)
    {
      if fault == GetFails { return false; }
      if id in apps {
        if !owned { return false; }
        if fault == DeleteRefused { return false; }
        apps := apps[id := true];
        if fault == DeleteLost { return false; }
      }
      ok := true;
    }

    /** The object of the cluster's own name wins; any object with its label will do; and none is
        returned only when the cluster has no control plane at all, under whatever name. */
    method FindTCP(id: Id) returns (found: Option<string>)
      ensures found.Some? ==> found.value in planes && (found.value == ControlPlaneName(id) || planes[found.value] == id)
      ensures ControlPlaneName(id) in planes ==> found == Some(ControlPlaneName(id))
      ensures found.None? ==> forall name :: name in planes ==> name != ControlPlaneName(id) && planes[name] != id
    {
      if ControlPlaneName(id) in planes { return Some(ControlPlaneName(id)); }
      var rest := planes.Keys;
      while rest != {}
        invariant rest <= planes.Keys
        invariant forall name :: name in planes && name !in rest ==> planes[name] != id
        decreases |rest|
      {
        var name :| name in rest;
        rest := rest - {name};
        if planes[name] == id { return Some(name); }
      }
      found := None;
    }

    method FinalizeSecret(id: Id, rec: Secret, fault: Fault) returns (o: Outcome)
      modifies this
      ensures (View(), o) == Visit(old(View()), id, rec, fault)
    {
      if now - rec.created < GRACE { return Pending; }
      if fault == ReadFails { return Aborted; }
      if id in apps {
        if apps[id] { return Pending; }
        return Alive;
      }
      var tcp := FindTCP(id);
      assert tcp.Some? ==> IsPlaneOf(View(), tcp.value, id);
      if tcp.Some? || (id in machines && machines[id] > 0) { return Pending; }
      if rec.cred != "" {
        if fault == NoRevoker || fault == RevokeFails { return Pending; }
        revoked := revoked + {rec.cred};
        if fault == RevokeLost { return Pending; }
      }
      if fault == DeleteFails { return Pending; }
      secrets := secrets - {id};
      o := Reaped;
    }

    /** The whole pass, undisturbed, with the namespace collected at its end if nothing lives
        there any more. */
    method FinalizeNamespace(ids: seq<Id>, recs: map<Id, Secret>, faults: Id -> Fault, managed: bool, foreign: bool, end: EndFault)
      returns (pending: nat, deleted: bool)
      requires forall id :: id in ids ==> id in recs
      modifies this
      ensures var t := SweepAll(old(View()), ids, recs, faults);
        && pending == t.pending
        && deleted == (!t.aborted && Collects(t.cloud, t.pending, t.reaped, managed, foreign) && EndLands(end))
        && View() == if deleted then Emptied(t.cloud) else t.cloud
    {
      pending, deleted := 0, false;
      var reaped: nat := 0;
      ghost var start := View();
      for i := 0 to |ids|
        invariant SweepAll(start, ids[..i], recs, faults) == Tally(View(), pending, reaped, false)
      {
        assert ids[..i + 1][..i] == ids[..i] && ids[..i + 1][i] == ids[i];
        var o := FinalizeSecret(ids[i], recs[ids[i]], faults(ids[i]));
        if o == Aborted {
          AbortStays(start, ids, recs, faults, i + 1);
          return;
        }
        if o == Pending { pending := pending + 1; }
        if o == Reaped { reaped := reaped + 1; }
      }
      assert ids[..|ids|] == ids;
      if reaped > 0 && pending == 0 && end != EndReadFails && apps == map[] && managed {
        if planes == map[] && (forall id :: id in machines ==> machines[id] == 0) && !foreign && end != EndDeleteFails {
          secrets := map[];
          deleted := true;
        }
      }
    }
  }
}
