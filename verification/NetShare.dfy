/** Asynchronous database deletion on the database cluster: marker secrets, network shares,
    auth secrets and Applications, and the orphan sweep that revokes shares and reaps
    markers. */
module NetShare {
  import opened Base

  type Id = string
  type Net = string

  const GRACE: int := 1800

  /** A net-share marker secret: the network it records and its creation time. */
  datatype Marker = Marker(net: Net, created: int)

  datatype App = App(net: Net, terminating: bool)

  /** What the cluster and neutron hold. */
  datatype Cloud = Cloud(
    now: int,
    markers: map<Id, Marker>,
    auths: set<Id>,
    backups: set<Id>,
    apps: map<Id, App>,
    lbs: set<Id>,
    shares: set<Net>
  )

  predicate Young(c: Cloud, m: Marker) {
    c.now - m.created < GRACE
  }

  predicate LiveSibling(c: Cloud, net: Net, exclude: Id) {
    exists id :: id in c.apps && id != exclude && !c.apps[id].terminating && c.apps[id].net == net
  }

  predicate MarkedSibling(c: Cloud, net: Net, exclude: Id) {
    exists id :: id in c.markers && id != exclude && c.markers[id].net == net && (Young(c, c.markers[id]) || id in c.apps)
  }

  /** `networkInUse`. */
  predicate InUse(c: Cloud, net: Net, exclude: Id) {
    LiveSibling(c, net, exclude) || MarkedSibling(c, net, exclude)
  }

  /** What can go wrong while one marker is finalized. */
  datatype Fault = NoFault | ReadFails | NoRevoker | RevokeFails | RevokeLost | AuthDeleteFails | MarkerDeleteFails

  datatype Outcome = Alive | Pending | Reaped | Aborted

  /** One iteration of `finalizeNamespace` for the marker `rec` of database `id`, which may come
      from a stale listing: the Application, the load balancer and the siblings are read now. */
  function Visit(c: Cloud, id: Id, rec: Marker, fault: Fault): (Cloud, Outcome) {
    if Young(c, rec) then (c, Pending)
    else if fault == ReadFails then (c, Aborted)
    else if id in c.apps then (c, if c.apps[id].terminating then Pending else Alive)
    else if id in c.lbs then (c, Pending)
    else
      var revoke := rec.net != "" && !InUse(c, rec.net, id);
      if revoke && (fault == NoRevoker || fault == RevokeFails) then (c, Pending)
      else
        var c1 := if revoke then c.(shares := c.shares - {rec.net}) else c;
        if revoke && fault == RevokeLost then (c1, Pending)
        else if fault == AuthDeleteFails then (c1, Pending)
        else
          var c2 := c1.(auths := c1.auths - {id});
          if fault == MarkerDeleteFails then (c2, Pending)
          else (c2.(markers := c2.markers - {id}), Reaped)
  }

  /** The result of a sweep over a listing. */
  datatype Tally = Tally(cloud: Cloud, pending: nat, reaped: nat, aborted: bool)

  function SweepAll(c: Cloud, ids: seq<Id>, recs: map<Id, Marker>, faults: Id -> Fault): Tally
    requires forall id :: id in ids ==> id in recs
  {
    if ids == [] then Tally(c, 0, 0, false)
    else
      var last := ids[|ids| - 1];
      var t := SweepAll(c, ids[..|ids| - 1], recs, faults);
      if t.aborted then t
      else
        var (c', o) := Visit(t.cloud, last, recs[last], faults(last));
        Tally(c', if o == Pending then t.pending + 1 else t.pending, if o == Reaped then t.reaped + 1 else t.reaped, o == Aborted)
  }

  /** The guards of `finalizeNamespace` and `gcNamespace` before the namespace is deleted. */
  predicate Collectable(c: Cloud, pending: nat, reaped: nat, managed: bool, foreign: bool) {
    reaped > 0 && pending == 0 && c.apps == map[] && managed && !foreign
  }

  /** What can go wrong at the end of a pass: one of the reads before the deletion of the
      namespace, the deletion, or only its answer. */
  datatype EndFault = EndOk | EndReadFails | EndDeleteFails | EndDeleteLost

  predicate EndLands(end: EndFault) {
    end == EndOk || end == EndDeleteLost
  }

  /** Deleting the namespace takes every secret in it. */
  function Emptied(c: Cloud): Cloud {
    c.(markers := map[], auths := {}, backups := {})
  }

  // ----- the cluster as the service drives it -----

  /** Where a create stops early; validation and the namespace fail before the marker does. */
  datatype CreateFault = CreateOk | MarkerFails | ShareFailsKeep | ShareFailsRollback | AuthFails | BackupFails | AppFails

  /** What the engine and the location call for. */
  datatype Needs = Needs(auth: bool, restores: bool, hasStore: bool, backs: bool)

  /** A restore needs an object store, and the location has none. */
  predicate Refused(n: Needs) {
    n.restores && !n.hasStore
  }

  predicate NeedsBackup(n: Needs) {
    n.hasStore && n.backs
  }

  /** How many of the five writes (marker, share, auth, backup, Application) are passed. */
  function Passed(n: Needs, fault: CreateFault): (k: nat)
    ensures k <= 5
  {
    if fault == MarkerFails then 0
    else if fault == ShareFailsKeep || fault == ShareFailsRollback then 1
    else if fault == AuthFails && n.auth then 2
    else if Refused(n) || (fault == BackupFails && NeedsBackup(n)) then 3
    else if fault == AppFails then 4
    else 5
  }

  predicate Succeeds(n: Needs, fault: CreateFault) {
    Passed(n, fault) == 5
  }

  /** What a create leaves behind: exactly the writes it passed and needed, except that a failed
      share may take the marker away again. */
  function Created(c: Cloud, id: Id, net: Net, n: Needs, fault: CreateFault): Cloud {
    var k := Passed(n, fault);
    c.(markers := if k == 0 then c.markers
                  else if fault == ShareFailsRollback then c.markers - {id}
                  else c.markers[id := Marker(net, c.now)],
       shares := if k >= 2 then c.shares + {net} else c.shares,
       auths := if k >= 3 && n.auth then c.auths + {id} else c.auths,
       backups := if k >= 4 && NeedsBackup(n) then c.backups + {id} else c.backups,
       apps := if k == 5 then c.apps[id := App(net, false)] else c.apps)
  }

  /** Everything a database depends on is there before its Application: the marker that records
      its network, the share, the auth secret its engine needs, and the credentials of the object
      store whenever the location has one and the engine backs up.  A restore without one leaves
      no Application, and neither does any create that reports an error. */
  lemma CreateLeaves(c: Cloud, id: Id, net: Net, n: Needs, fault: CreateFault)
    requires id !in c.apps
    ensures var z := Created(c, id, net, n, fault);
      && (id in z.apps <==> Succeeds(n, fault))
      && (id in z.apps ==> id in z.markers && z.markers[id] == Marker(net, c.now) && net in z.shares && z.apps[id] == App(net, false))
      && (id in z.apps ==> (n.auth ==> id in z.auths) && (n.hasStore && n.backs ==> id in z.backups) && (n.restores ==> n.hasStore))
      && (forall d :: d != id ==> (d in z.markers <==> d in c.markers) && (d in z.auths <==> d in c.auths) && (d in z.backups <==> d in c.backups) && (d in z.apps <==> d in c.apps))
      && c.shares <= z.shares <= c.shares + {net}
  {
  }

  /** What can go wrong with a delete; a lost answer hides a delete that happened. */
  datatype DeleteFault = DeleteOk | GetFails | DeleteRefused | DeleteLost

  class Cluster {
    var now: int
    var markers: map<Id, Marker>
    var auths: set<Id>
    var backups: set<Id>
    var apps: map<Id, App>
    var lbs: set<Id>
    var shares: set<Net>

    constructor (c: Cloud)
      ensures View() == c
    {
      now, markers, auths, backups, apps, lbs, shares := c.now, c.markers, c.auths, c.backups, c.apps, c.lbs, c.shares;
    }

    ghost function View(): Cloud
      reads this
    {
      Cloud(now, markers, auths, backups, apps, lbs, shares)
    }

    /** Marker first, then the share, then the auth and backup secrets, then the Application.
        A failure leaves exactly what was written before it, except that a failed share removes
        the marker again (best effort). */
    method CreateDatabase(id: Id, net: Net, n: Needs, fault: CreateFault) returns (ok: bool)
      modifies this
      ensures ok <==> Succeeds(n, fault)
      ensures View() == Created(old(View()), id, net, n, fault)
    {
      ok := false;
      if fault == MarkerFails { return; }
      markers := markers[id := Marker(net, now)];
      if fault == ShareFailsKeep { return; }
      if fault == ShareFailsRollback {
        markers := markers - {id};
        return;
      }
      shares := shares + {net};
      if n.auth {
        if fault == AuthFails { return; }
        auths := auths + {id};
      }
      if n.restores && !n.hasStore { return; }
      if n.hasStore && n.backs {
        if fault == BackupFails { return; }
        backups := backups + {id};
      }
      if fault == AppFails { return; }
      apps := apps[id := App(net, false)];
      ok := true;
    }

    /** Deletes the Application only, and only one that carries the service's own labels; the
        marker stays.  An absent Application is no error. */
    method DeleteDatabase(id: Id, owned: bool, fault: DeleteFault) returns (ok: bool)
      modifies this
      ensures ok <==> fault != GetFails && (id in old(apps) ==> owned && fault == DeleteOk)
      ensures apps == if id in old(apps) && owned && (fault == DeleteOk || fault == DeleteLost)
                      then old(apps)[id := old(apps)[id].(terminating := true)] else old(apps)
      ensures View() == old(View()).(apps := apps)
    {
      if fault == GetFails { return false; }
      if id in apps {
        if !owned { return false; }
        if fault == DeleteRefused { return false; }
        apps := apps[id := apps[id].(terminating := true)];
        if fault == DeleteLost { return false; }
      }
      ok := true;
    }

    /** Both listings are walked in whatever order they are returned. */
    method NetworkInUse(net: Net, exclude: Id) returns (b: bool)
      ensures b == InUse(View(), net, exclude)
    {
      var rest := apps.Keys;
      while rest != {}
        invariant rest <= apps.Keys
        invariant forall id :: id in apps && id !in rest ==> apps[id].terminating || id == exclude || apps[id].net != net
        decreases |rest|
      {
        var id :| id in rest;
        rest := rest - {id};
        if apps[id].terminating { continue; }
        if id == exclude { continue; }
        if apps[id].net == net { return true; }
      }
      rest := markers.Keys;
      while rest != {}
        invariant rest <= markers.Keys
        invariant forall id :: id in markers && id !in rest ==>
          id == exclude || markers[id].net != net || (!Young(View(), markers[id]) && id !in apps)
        decreases |rest|
      {
        var id :| id in rest;
        rest := rest - {id};
        if id == exclude { continue; }
        if markers[id].net != net { continue; }
        if now - markers[id].created < GRACE { return true; }
        if id in apps { return true; }
      }
      b := false;
    }

    /** `finalizeNamespace` over a listing of markers, without interference; the namespace is
        collected only when something was reaped, nothing is pending and no Application is left. */
    method FinalizeNamespace(ids: seq<Id>, recs: map<Id, Marker>, faults: Id -> Fault, managed: bool, foreign: bool, end: EndFault)
      returns (pending: nat, deleted: bool)
      requires forall id :: id in ids ==> id in recs
      modifies this
      ensures var t := SweepAll(old(View()), ids, recs, faults);
        && pending == t.pending
        && deleted == (!t.aborted && Collectable(t.cloud, t.pending, t.reaped, managed, foreign) && EndLands(end))
        && View() == if deleted then Emptied(t.cloud) else t.cloud
    {
      hide Visit;
      pending, deleted := 0, false;
      var reaped: nat := 0;
      ghost var start := View();
      for i := 0 to |ids|
        invariant SweepAll(start, ids[..i], recs, faults) == Tally(View(), pending, reaped, false)
      {
        assert ids[..i + 1][..i] == ids[..i] && ids[..i + 1][i] == ids[i];
        var id, rec := ids[i], recs[ids[i]];
        var o := FinalizeMarker(id, rec, faults(id));
        if o == Aborted {
          AbortStays(start, ids, recs, faults, i + 1);
          return;
        }
        if o == Pending { pending := pending + 1; }
        if o == Reaped { reaped := reaped + 1; }
      }
      assert ids[..|ids|] == ids;
      if reaped > 0 && pending == 0 && end != EndReadFails && apps == map[] && managed && !foreign && end != EndDeleteFails {
        markers, auths, backups := map[], {}, {};
        deleted := true;
      }
    }

    /** One marker: revoke unless a sibling needs the network, then the auth secret, then the
        marker last. */
    method FinalizeMarker(id: Id, rec: Marker, fault: Fault) returns (o: Outcome)
      modifies this
      ensures (View(), o) == Visit(old(View()), id, rec, fault)
      ensures id in old(lbs) ==> View() == old(View()) && o != Reaped
    {
      if now - rec.created < GRACE { return Pending; }
      if fault == ReadFails { return Aborted; }
      if id in apps {
        if apps[id].terminating { return Pending; }
        return Alive;
      }
      if id in lbs { return Pending; }
      if rec.net != "" {
        var inUse := NetworkInUse(rec.net, id);
        if !inUse {
          if fault == NoRevoker || fault == RevokeFails { return Pending; }
          shares := shares - {rec.net};
          if fault == RevokeLost { return Pending; }
        }
      }
      if fault == AuthDeleteFails { return Pending; }
      auths := auths - {id};
      if fault == MarkerDeleteFails { return Pending; }
      markers := markers - {id};
      o := Reaped;
    }
  }

  lemma {:induction false} AbortStays(c: Cloud, ids: seq<Id>, recs: map<Id, Marker>, faults: Id -> Fault, i: nat)
    requires forall id :: id in ids ==> id in recs
    requires i <= |ids| && SweepAll(c, ids[..i], recs, faults).aborted
    ensures SweepAll(c, ids, recs, faults) == SweepAll(c, ids[..i], recs, faults)
    decreases |ids|
  {
    if i == |ids| {
      assert ids[..i] == ids;
    } else {
      var front := ids[..|ids| - 1];
      assert front[..i] == ids[..i];
      AbortStays(c, front, recs, faults, i);
    }
  }

  // ----- one undisturbed pass over a settled namespace -----

  /** Shares are recorded, live databases are marked and shared, everything is aged and every
      cascade has finished. */
  ghost predicate Settled(c: Cloud) {
    && (forall id :: id in c.markers ==> !Young(c, c.markers[id]) && c.markers[id].net != "")
    && (forall id :: id in c.apps ==> !c.apps[id].terminating && id in c.markers && c.markers[id].net == c.apps[id].net && c.apps[id].net in c.shares)
    && c.lbs <= c.apps.Keys
    && c.auths <= c.markers.Keys
    && Recorded(c)
  }

  /** Every share has a marker that records it, so a sweep can find and revoke it. */
  ghost predicate Recorded(c: Cloud) {
    forall net :: net in c.shares ==> exists id :: id in c.markers && c.markers[id].net == net
  }

  ghost function LiveNets(c: Cloud): set<Net> {
    set id | id in c.apps :: c.apps[id].net
  }

  lemma InUseWhenSettled(c: Cloud, net: Net, exclude: Id)
    requires Settled(c) && exclude !in c.apps
    ensures InUse(c, net, exclude) <==> net in LiveNets(c)
  {
    if net in LiveNets(c) {
      var id :| id in c.apps && c.apps[id].net == net;
      assert id in c.apps && id != exclude && !c.apps[id].terminating && c.apps[id].net == net;
    }
  }

  /** Reaping one orphan keeps the namespace settled. */
  lemma OrphanReaped(c: Cloud, id: Id)
    requires Settled(c) && id in c.markers
    ensures var (c', o) := Visit(c, id, c.markers[id], NoFault);
      && Settled(c') && c'.apps == c.apps && c'.now == c.now && c'.lbs == c.lbs
      && o == (if id in c.apps then Alive else Reaped)
      && c'.markers == (if id in c.apps then c.markers else c.markers - {id})
      && c'.auths == (if id in c.apps then c.auths else c.auths - {id})
      && c'.shares <= c.shares
  {
    if id !in c.apps {
      var rec := c.markers[id];
      InUseWhenSettled(c, rec.net, id);
      var (c', o) := Visit(c, id, rec, NoFault);
      assert o == Reaped && c'.markers == c.markers - {id};
      forall net | net in c'.shares ensures exists other :: other in c'.markers && c'.markers[other].net == net {
        if net == rec.net {
          var other :| other in c.apps && c.apps[other].net == net;
          assert other in c'.markers && c'.markers[other].net == net;
        } else {
          var other :| other in c.markers && c.markers[other].net == net;
          assert other in c'.markers && c'.markers[other].net == net;
        }
      }
      forall other | other in c'.apps ensures c'.apps[other].net in c'.shares {
        assert c.apps[other].net in LiveNets(c);
      }
    }
  }

  function Healthy(id: Id): Fault {
    NoFault
  }

  ghost function Orphans(c: Cloud, ids: seq<Id>): set<Id> {
    set id | id in ids && id !in c.apps
  }

  lemma {:induction false} SettledSweep(c: Cloud, ids: seq<Id>)
    requires Settled(c) && (forall id :: id in ids ==> id in c.markers)
    requires forall i, j :: 0 <= i < j < |ids| ==> ids[i] != ids[j]
    ensures var t := SweepAll(c, ids, c.markers, Healthy);
      && Settled(t.cloud) && !t.aborted && t.pending == 0 && t.cloud.apps == c.apps
      && t.cloud.markers == c.markers - Orphans(c, ids)
      && t.cloud.auths == c.auths - Orphans(c, ids)
  {
    hide Settled, Visit, Young;
    if ids == [] {
      assert Orphans(c, ids) == {};
    } else {
      var front, last := ids[..|ids| - 1], ids[|ids| - 1];
      SettledSweep(c, front);
      var t := SweepAll(c, front, c.markers, Healthy);
      assert last !in front;
      assert Orphans(c, ids) == Orphans(c, front) + if last in c.apps then {} else {last};
      assert last in t.cloud.markers && t.cloud.markers[last] == c.markers[last];
      OrphanReaped(t.cloud, last);
    }
  }

  /** MAIN RESULT.  One undisturbed pass with a working revoker over all markers of a settled
      namespace, in any order, leaves exactly the markers and auth secrets of live databases
      and exactly the networks of live databases shared. */
  lemma SweepConverges(c: Cloud, ids: seq<Id>)
    requires Settled(c) && (forall id :: id in ids <==> id in c.markers)
    requires forall i, j :: 0 <= i < j < |ids| ==> ids[i] != ids[j]
    ensures var t := SweepAll(c, ids, c.markers, Healthy);
      && t.cloud.markers.Keys == c.apps.Keys
      && t.cloud.auths == c.auths * c.apps.Keys
      && t.cloud.shares == LiveNets(c)
      && t.cloud.apps == c.apps && t.pending == 0
  {
    hide SweepAll;
    SettledSweep(c, ids);
    var r := SweepAll(c, ids, c.markers, Healthy).cloud;
    forall net ensures net in r.shares <==> net in LiveNets(c) {
      if net in r.shares {
        var id :| id in r.markers && r.markers[id].net == net;
        assert id in r.apps && r.apps[id].net == net;
      }
      if net in LiveNets(c) {
        var id :| id in c.apps && c.apps[id].net == net;
        assert id in r.apps && r.apps[id].net in r.shares;
      }
    }
  }
}
