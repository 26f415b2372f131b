/** Every interleaving of cluster creates, deletes, cascades and sweep passes. */
module KamajiRuns {
  import opened Kamaji

  /** A pass over a listing of secrets, and the clusters whose create had begun when it was
      taken. */
  datatype Pass = Pass(known: set<Id>, listed: set<Id>, todo: set<Id>, alive: set<Id>, pending: nat, reaped: nat)

  /** The management cluster, the calls in flight, every secret ever written, and the creates
      that reported an error after writing their secret. */
  datatype World = World(cloud: Cloud, creating: set<Id>, passes: map<nat, Pass>, hist: map<Id, Secret>, abandoned: set<Id>)

  datatype Step =
    | Tick(d: nat)
    | Begin(id: Id, cred: Cred)
    | Apply(id: Id)
    | Fails(id: Id, landed: bool)
    | Unwind(id: Id)
    | Crash(id: Id)
    | Delete(id: Id)
    | CascadeDone(id: Id)
    | ControlPlaneUp(id: Id, name: string, labelled: bool)
    | ControlPlaneDown(name: string)
    | Machines(id: Id, count: nat)
    | List(p: nat)
    | Finalize(p: nat, id: Id, fault: Fault)
    | Gc(p: nat, managed: bool, foreign: bool)

  predicate Fresh(w: World, id: Id)
    requires id in w.hist
  {
    Young(w.cloud, w.hist[id])
  }

  /** A control plane carries its cluster's derived name, or its label and a name that no cluster
      derives. */
  predicate IsNameFor(w: World, id: Id, name: string, labelled: bool) {
    name == ControlPlaneName(id) || (labelled && forall d :: d in w.hist ==> name != ControlPlaneName(d))
  }

  /** Ids are never reused and each cluster has a credential of its own; the Application is
      applied in the grace window; a chart grows a control plane or machines only while its
      Application exists; no create starts between a pass's listing and its namespace GC. */
  predicate Enabled(w: World, s: Step) {
    match s
    case Begin(id, cred) => id !in w.hist && id != "" && (cred != "" ==> cred !in w.cloud.revoked && forall d :: d in w.hist ==> w.hist[d].cred != cred)
    case Apply(id) => id in w.creating && id in w.hist && Fresh(w, id)
    case Fails(id, landed) => id in w.creating && id in w.hist && (landed ==> Fresh(w, id))
    case Unwind(id) => id in w.abandoned && id in w.hist
    case Delete(id) => id in w.cloud.apps
    case CascadeDone(id) => id in w.cloud.apps && w.cloud.apps[id]
    case ControlPlaneUp(id, name, labelled) => id in w.cloud.apps && name !in w.cloud.planes && IsNameFor(w, id, name, labelled)
    case Machines(id, count) => id in w.cloud.apps || (id in w.cloud.machines && count <= w.cloud.machines[id])
    case Finalize(p, id, _) => p in w.passes && id in w.passes[p].todo && id in w.hist
    case Gc(p, _, _) => p in w.passes && w.passes[p].todo == {} && w.hist.Keys <= w.passes[p].known
    case _ => true
  }

  function Recount(q: Pass, id: Id, o: Outcome): Pass {
    q.(todo := q.todo - {id},
       alive := if o == Alive then q.alive + {id} else q.alive,
       pending := if o == Pending then q.pending + 1 else q.pending,
       reaped := if o == Reaped then q.reaped + 1 else q.reaped)
  }

  predicate PassCollects(w: World, p: nat, managed: bool, foreign: bool)
    requires p in w.passes
  {
    Collects(w.cloud, w.passes[p].pending, w.passes[p].reaped, managed, foreign)
  }

  function Next(w: World, s: Step): World
    requires Enabled(w, s)
  {
    var c := w.cloud;
    match s
    case Tick(d) => w.(cloud := c.(now := c.now + d))
    case Begin(id, cred) =>
      var m := Secret(cred, c.now);
      w.(cloud := c.(secrets := c.secrets[id := m]), hist := w.hist[id := m], creating := w.creating + {id})
    case Apply(id) => w.(cloud := c.(apps := c.apps[id := false]), creating := w.creating - {id})
    case Fails(id, landed) =>
      w.(cloud := if landed then c.(apps := c.apps[id := false]) else c, creating := w.creating - {id}, abandoned := w.abandoned + {id})
    case Unwind(id) => if w.hist[id].cred == "" then w else w.(cloud := c.(revoked := c.revoked + {w.hist[id].cred}))
    case Crash(id) => w.(creating := w.creating - {id})
    case Delete(id) => w.(cloud := c.(apps := c.apps[id := true]))
    case CascadeDone(id) => w.(cloud := c.(apps := c.apps - {id}))
    case ControlPlaneUp(id, name, labelled) => w.(cloud := c.(planes := c.planes[name := if labelled then id else ""]))
    case ControlPlaneDown(name) => w.(cloud := c.(planes := c.planes - {name}))
    case Machines(id, count) => w.(cloud := c.(machines := c.machines[id := count]))
    case List(p) => w.(passes := w.passes[p := Pass(w.hist.Keys, c.secrets.Keys, c.secrets.Keys, {}, 0, 0)])
    case Finalize(p, id, fault) =>
      var (c', o) := Visit(c, id, w.hist[id], fault);
      w.(cloud := c', passes := if o == Aborted then w.passes - {p} else w.passes[p := Recount(w.passes[p], id, o)])
    case Gc(p, managed, foreign) =>
      var done := w.passes - {p};
      if PassCollects(w, p, managed, foreign) then w.(cloud := Emptied(c), passes := done) else w.(passes := done)
  }

  /** A management cluster nobody has used. */
  function Empty(now: int): World {
    World(Cloud(now, map[], map[], map[], map[], {}), {}, map[], map[], {})
  }

  predicate Initial(w: World) {
    && w.cloud.secrets == map[] && w.cloud.apps == map[] && w.cloud.planes == map[] && w.cloud.machines == map[]
    && w.creating == {} && w.passes == map[] && w.hist == map[] && w.abandoned == {}
  }

  predicate IsRun(w: World, steps: seq<Step>)
    decreases |steps|
  {
    steps == [] || (Enabled(w, steps[0]) && IsRun(Next(w, steps[0]), steps[1..]))
  }

  function After(w: World, steps: seq<Step>): World
    requires IsRun(w, steps)
    decreases |steps|
  {
    if steps == [] then w else After(Next(w, steps[0]), steps[1..])
  }

  // ----- what every step keeps -----

  ghost predicate Records(w: World) {
    && (forall id :: id in w.cloud.secrets ==> id in w.hist && w.hist[id] == w.cloud.secrets[id])
    && "" !in w.hist && w.abandoned <= w.hist.Keys && w.creating <= w.hist.Keys - w.abandoned
    && OwnCredentials(w.hist)
  }

  /** No two clusters record one credential. */
  ghost predicate OwnCredentials(hist: map<Id, Secret>) {
    forall id, d :: id in hist && d in hist && id != d && hist[id].cred != "" ==> hist[id].cred != hist[d].cred
  }

  /** While an Application, a control plane or a machine deployment remains, the secret is
      there; a create in its grace window has its secret. */
  ghost predicate Present(w: World) {
    && w.cloud.apps.Keys <= w.cloud.secrets.Keys
    && (forall id :: id in w.hist && Remains(w.cloud, id) ==> id in w.cloud.secrets)
    && (forall id :: id in w.creating && id in w.hist && Fresh(w, id) ==> id in w.cloud.secrets)
  }

  /** The credential of a cluster that was not given up is unrevoked while anything remains
      and while it is in its grace window. */
  ghost predicate Usable(w: World) {
    forall id :: id in w.hist && id !in w.abandoned && w.hist[id].cred != "" && (Remains(w.cloud, id) || Fresh(w, id)) ==>
      w.hist[id].cred !in w.cloud.revoked
  }

  ghost predicate PassOk(w: World, q: Pass) {
    && q.todo <= q.listed <= q.known <= w.hist.Keys && q.alive <= w.hist.Keys
    && (forall id :: id in q.alive ==> !Fresh(w, id))
    && (forall id :: id in w.cloud.secrets && id in q.known && id !in q.todo && id !in q.alive ==> q.pending > 0)
  }

  ghost predicate PassesOk(w: World) {
    forall p :: p in w.passes ==> PassOk(w, w.passes[p])
  }

  /** What concerns clusters one by one. */
  ghost predicate Core(w: World) {
    Records(w) && Present(w) && Usable(w)
  }

  ghost predicate Inv(w: World) {
    Core(w) && PassesOk(w)
  }

  lemma SameRemains(c: Cloud, c': Cloud)
    requires c'.apps == c.apps && c'.planes == c.planes && c'.machines == c.machines
    ensures forall d :: Remains(c', d) <==> Remains(c, d)
  {
    SamePlanes(c, c');
  }

  lemma VisitEffect(c: Cloud, id: Id, rec: Secret, fault: Fault)
    ensures var (c', o) := Visit(c, id, rec, fault);
      && c' == c.(secrets := c'.secrets, revoked := c'.revoked)
      && c'.secrets == (if o == Reaped then c.secrets - {id} else c.secrets)
      && c.revoked <= c'.revoked <= c.revoked + {rec.cred}
      && (o == Reaped || c'.revoked != c.revoked ==> !Young(c, rec) && !Remains(c, id) && id !in c.apps)
      && (o == Reaped && rec.cred != "" ==> rec.cred in c'.revoked)
      && (o == Alive ==> !Young(c, rec))
      && (c'.revoked != c.revoked ==> rec.cred != "")
  {
  }

  lemma PassesKept(w: World, w': World)
    requires PassesOk(w) && w'.passes == w.passes && w.cloud.now <= w'.cloud.now
    requires forall id :: id in w.hist ==> id in w'.hist && w'.hist[id] == w.hist[id]
    requires forall id :: id in w'.cloud.secrets ==> id in w.cloud.secrets || id !in w.hist
    ensures PassesOk(w')
  {
    forall k | k in w'.passes ensures PassOk(w', w'.passes[k]) {
      assert PassOk(w, w.passes[k]);
    }
  }

  lemma FinalizeKeeps(w: World, p: nat, id: Id, fault: Fault)
    requires Inv(w) && Enabled(w, Finalize(p, id, fault))
    ensures Inv(Next(w, Finalize(p, id, fault)))
  {
    FinalizeCore(w, p, id, fault);
    FinalizeKeepsPasses(w, p, id, fault);
  }

  lemma FinalizeCore(w: World, p: nat, id: Id, fault: Fault)
    requires Core(w) && Enabled(w, Finalize(p, id, fault))
    ensures Core(Next(w, Finalize(p, id, fault)))
  {
    hide Visit, Remains, OwnCredentials, Usable;
    VisitEffect(w.cloud, id, w.hist[id], fault);
    var w' := Next(w, Finalize(p, id, fault));
    SameRemains(w.cloud, w'.cloud);
    FinalizeUsable(w, p, id, fault);
  }

  /** Only the credential of a cluster that is gone is revoked. */
  lemma FinalizeUsable(w: World, p: nat, id: Id, fault: Fault)
    requires OwnCredentials(w.hist) && Usable(w) && Enabled(w, Finalize(p, id, fault))
    ensures Usable(Next(w, Finalize(p, id, fault)))
  {
    hide Visit, Remains;
    VisitEffect(w.cloud, id, w.hist[id], fault);
    SameRemains(w.cloud, Next(w, Finalize(p, id, fault)).cloud);
  }

  lemma FinalizeKeepsPasses(w: World, p: nat, id: Id, fault: Fault)
    requires Records(w) && PassesOk(w) && Enabled(w, Finalize(p, id, fault))
    ensures PassesOk(Next(w, Finalize(p, id, fault)))
  {
    hide Visit;
    VisitEffect(w.cloud, id, w.hist[id], fault);
    var w' := Next(w, Finalize(p, id, fault));
    forall k | k in w'.passes ensures PassOk(w', w'.passes[k]) {
      assert PassOk(w, w.passes[k]);
    }
  }

  /** When a pass collects the namespace, every secret left belongs to a cluster that the pass
      found alive and that is gone entirely by now. */
  lemma GcFindsOnlyAlive(w: World, p: nat, managed: bool, foreign: bool)
    requires Inv(w) && Enabled(w, Gc(p, managed, foreign)) && PassCollects(w, p, managed, foreign)
    ensures w.cloud.secrets.Keys <= w.passes[p].alive
    ensures forall id :: id in w.cloud.secrets ==> !Fresh(w, id)
    ensures forall id :: !Remains(w.cloud, id)
  {
    assert PassOk(w, w.passes[p]);
    forall id | id in w.cloud.secrets ensures id in w.passes[p].alive { assert id in w.hist; }
  }

  lemma GcKeeps(w: World, p: nat, managed: bool, foreign: bool)
    requires Inv(w) && Enabled(w, Gc(p, managed, foreign))
    ensures Inv(Next(w, Gc(p, managed, foreign)))
  {
    var w' := Next(w, Gc(p, managed, foreign));
    if PassCollects(w, p, managed, foreign) {
      GcFindsOnlyAlive(w, p, managed, foreign);
    }
    SameRemains(w.cloud, w'.cloud);
    forall k | k in w'.passes ensures PassOk(w', w'.passes[k]) {
      assert PassOk(w, w.passes[k]);
    }
  }

  lemma BeginCore(w: World, id: Id, cred: Cred)
    requires Core(w) && Enabled(w, Begin(id, cred))
    ensures Core(Next(w, Begin(id, cred)))
  {
    BeginUsable(w, id, cred);
    BeginOwn(w.hist, id, Secret(cred, w.cloud.now));
    hide Remains, Usable, OwnCredentials;
    SameRemains(w.cloud, Next(w, Begin(id, cred)).cloud);
  }

  lemma BeginOwn(hist: map<Id, Secret>, id: Id, m: Secret)
    requires OwnCredentials(hist) && (m.cred != "" ==> forall d :: d in hist ==> hist[d].cred != m.cred)
    ensures OwnCredentials(hist[id := m])
  {
  }

  lemma BeginUsable(w: World, id: Id, cred: Cred)
    requires Usable(w) && Enabled(w, Begin(id, cred))
    ensures Usable(Next(w, Begin(id, cred)))
  {
    hide Remains;
    SameRemains(w.cloud, Next(w, Begin(id, cred)).cloud);
  }

  lemma CreateCore(w: World, s: Step)
    requires Core(w) && Enabled(w, s) && (s.Tick? || s.Begin? || s.Crash?)
    ensures Core(Next(w, s))
  {
    if s.Begin? {
      BeginCore(w, s.id, s.cred);
    } else {
      hide Remains, OwnCredentials;
      SameRemains(w.cloud, Next(w, s).cloud);
    }
  }

  lemma CreateKeeps(w: World, s: Step)
    requires Inv(w) && Enabled(w, s) && (s.Tick? || s.Begin? || s.Crash?)
    ensures Inv(Next(w, s))
  {
    CreateCore(w, s);
    hide PassesOk, Core;
    PassesKept(w, Next(w, s));
  }

  lemma ApplyKeeps(w: World, s: Step)
    requires Inv(w) && Enabled(w, s) && (s.Apply? || s.Fails?)
    ensures Inv(Next(w, s))
  {
    hide PassesOk, HasControlPlane, OwnCredentials;
    var w' := Next(w, s);
    PassesKept(w, w');
    SamePlanes(w.cloud, w'.cloud);
  }

  lemma SamePlanes(c: Cloud, c': Cloud)
    requires c'.planes == c.planes
    ensures forall d :: HasControlPlane(c', d) <==> HasControlPlane(c, d)
  {
    forall d ensures HasControlPlane(c', d) <==> HasControlPlane(c, d) {
      assert forall name :: IsPlaneOf(c', name, d) <==> IsPlaneOf(c, name, d);
    }
  }

  /** Nothing of a cluster reappears once all of it is gone. */
  lemma RemainsBefore(w: World, s: Step, d: Id)
    requires Records(w) && w.cloud.apps.Keys <= w.hist.Keys && Enabled(w, s) && d in w.hist && Remains(Next(w, s).cloud, d)
    requires s.Delete? || s.CascadeDone? || s.ControlPlaneUp? || s.ControlPlaneDown? || s.Machines?
    ensures Remains(w.cloud, d)
  {
    var c, c' := w.cloud, Next(w, s).cloud;
    if HasControlPlane(c', d) {
      var name :| name in c'.planes && IsPlaneOf(c', name, d);
      if s.ControlPlaneUp? && name == s.name {
        if name == ControlPlaneName(d) && name == ControlPlaneName(s.id) { NamesDiffer(d, s.id); }
        assert d == s.id;
      } else {
        assert name in c.planes && c.planes[name] == c'.planes[name];
        assert IsPlaneOf(c, name, d);
      }
    }
  }

  lemma NamesDiffer(a: Id, b: Id)
    requires ControlPlaneName(a) == ControlPlaneName(b)
    ensures a == b
  {
    assert ControlPlaneName(a)[..|a|] == a && ControlPlaneName(b)[..|b|] == b;
  }

  lemma ClusterKeeps(w: World, s: Step)
    requires Inv(w) && Enabled(w, s) && (s.Delete? || s.CascadeDone? || s.ControlPlaneUp? || s.ControlPlaneDown? || s.Machines?)
    ensures Inv(Next(w, s))
  {
    hide PassesOk, Remains, OwnCredentials;
    var w' := Next(w, s);
    PassesKept(w, w');
    forall d | d in w.hist && Remains(w'.cloud, d) ensures Remains(w.cloud, d) { RemainsBefore(w, s, d); }
  }

  lemma UnwindKeeps(w: World, id: Id)
    requires Inv(w) && Enabled(w, Unwind(id))
    ensures Inv(Next(w, Unwind(id)))
  {
    hide PassesOk, Remains;
    var w' := Next(w, Unwind(id));
    PassesKept(w, w');
    SameRemains(w.cloud, w'.cloud);
  }

  lemma ListKeeps(w: World, p: nat)
    requires Inv(w)
    ensures Inv(Next(w, List(p)))
  {
    var w' := Next(w, List(p));
    forall k | k in w'.passes ensures PassOk(w', w'.passes[k]) {
      if k != p { assert PassOk(w, w.passes[k]); }
    }
  }

  lemma StepKeeps(w: World, s: Step)
    requires Inv(w) && Enabled(w, s)
    ensures Inv(Next(w, s))
  {
    hide Inv, Next, Enabled;
    match s
    case Tick(_) => CreateKeeps(w, s);
    case Begin(_, _) => CreateKeeps(w, s);
    case Crash(_) => CreateKeeps(w, s);
    case Apply(_) => ApplyKeeps(w, s);
    case Fails(_, _) => ApplyKeeps(w, s);
    case Unwind(id) => UnwindKeeps(w, id);
    case List(p) => ListKeeps(w, p);
    case Finalize(p, id, fault) => FinalizeKeeps(w, p, id, fault);
    case Gc(p, managed, foreign) => GcKeeps(w, p, managed, foreign);
    case _ => ClusterKeeps(w, s);
  }

  lemma {:induction false} RunKeeps(w: World, steps: seq<Step>)
    requires Inv(w) && IsRun(w, steps)
    ensures Inv(After(w, steps))
    decreases |steps|
  {
    hide Inv, Next, Enabled;
    if steps != [] {
      StepKeeps(w, steps[0]);
      RunKeeps(Next(w, steps[0]), steps[1..]);
    }
  }

  /** MAIN RESULT.  In every state of every run, while an Application, a control plane or a
      machine deployment of a cluster remains, its cloud secret is present, and unless its
      create reported an error the credential the secret records is unrevoked. */
  lemma SecretsStayUsable(w: World, steps: seq<Step>)
    requires Initial(w) && IsRun(w, steps)
    ensures var z := After(w, steps);
      forall id :: id in z.hist && Remains(z.cloud, id) ==>
        && id in z.cloud.secrets
        && (id !in z.abandoned && z.cloud.secrets[id].cred != "" ==> z.cloud.secrets[id].cred !in z.cloud.revoked)
  {
    RunKeeps(w, steps);
  }

  // ----- creates that reported an error -----

  /** Whatever remains of a cluster, given up or not, has an unrevoked credential. */
  ghost predicate AllUsable(w: World) {
    forall id :: id in w.hist && w.hist[id].cred != "" && Remains(w.cloud, id) ==> w.hist[id].cred !in w.cloud.revoked
  }

  /** The one step that can strand a cluster: the caller of a create that reported an error
      revokes the credential it minted, although the Application was written all the same. */
  predicate Spares(w: World, s: Step)
    requires Enabled(w, s)
  {
    s.Unwind? ==> w.hist[s.id].cred == "" || !Remains(w.cloud, s.id)
  }

  lemma UnwindUsable(w: World, id: Id)
    requires Core(w) && AllUsable(w) && Enabled(w, Unwind(id))
    ensures AllUsable(Next(w, Unwind(id))) <==> Spares(w, Unwind(id))
  {
    hide Remains;
    SameRemains(w.cloud, Next(w, Unwind(id)).cloud);
  }

  lemma FinalizeAllUsable(w: World, p: nat, id: Id, fault: Fault)
    requires Core(w) && AllUsable(w) && Enabled(w, Finalize(p, id, fault))
    ensures AllUsable(Next(w, Finalize(p, id, fault)))
  {
    hide Visit, Remains;
    VisitEffect(w.cloud, id, w.hist[id], fault);
    SameRemains(w.cloud, Next(w, Finalize(p, id, fault)).cloud);
  }

  /** An Application lands while its credential is sure to be good. */
  lemma LandingUsable(w: World, s: Step)
    requires Core(w) && AllUsable(w) && Enabled(w, s) && (s.Apply? || s.Fails?)
    ensures AllUsable(Next(w, s))
  {
    hide HasControlPlane, OwnCredentials;
    SamePlanes(w.cloud, Next(w, s).cloud);
  }

  lemma ClusterUsable(w: World, s: Step)
    requires Core(w) && AllUsable(w) && Enabled(w, s) && (s.Delete? || s.CascadeDone? || s.ControlPlaneUp? || s.ControlPlaneDown? || s.Machines?)
    ensures AllUsable(Next(w, s))
  {
    hide Remains, OwnCredentials;
    forall d | d in w.hist && Remains(Next(w, s).cloud, d) ensures Remains(w.cloud, d) { RemainsBefore(w, s, d); }
  }

  lemma OtherUsable(w: World, s: Step)
    requires Core(w) && AllUsable(w) && Enabled(w, s) && (s.Tick? || s.Begin? || s.Crash? || s.List? || s.Gc?)
    ensures AllUsable(Next(w, s))
  {
    hide Remains, OwnCredentials, PassCollects;
    SameRemains(w.cloud, Next(w, s).cloud);
  }

  lemma StepUsable(w: World, s: Step)
    requires Inv(w) && AllUsable(w) && Enabled(w, s)
    ensures AllUsable(Next(w, s)) <==> Spares(w, s)
  {
    hide Core, AllUsable, Next, PassesOk;
    match s
    case Unwind(id) => UnwindUsable(w, id);
    case Finalize(p, id, fault) => FinalizeAllUsable(w, p, id, fault);
    case Apply(_) => LandingUsable(w, s);
    case Fails(_, _) => LandingUsable(w, s);
    case Tick(_) => OtherUsable(w, s);
    case Begin(_, _) => OtherUsable(w, s);
    case Crash(_) => OtherUsable(w, s);
    case List(_) => OtherUsable(w, s);
    case Gc(_, _, _) => OtherUsable(w, s);
    case _ => ClusterUsable(w, s);
  }

  ghost predicate AlwaysUsable(w: World, steps: seq<Step>)
    requires IsRun(w, steps)
    decreases |steps|
  {
    AllUsable(w) && (steps == [] || AlwaysUsable(Next(w, steps[0]), steps[1..]))
  }

  predicate AllSpared(w: World, steps: seq<Step>)
    requires IsRun(w, steps)
    decreases |steps|
  {
    steps == [] || (Spares(w, steps[0]) && AllSpared(Next(w, steps[0]), steps[1..]))
  }

  lemma {:induction false} RunUsable(w: World, steps: seq<Step>)
    requires Inv(w) && AllUsable(w) && IsRun(w, steps)
    ensures AlwaysUsable(w, steps) <==> AllSpared(w, steps)
    decreases |steps|
  {
    hide Inv, Next, Enabled, AllUsable, Spares;
    if steps != [] {
      StepKeeps(w, steps[0]);
      StepUsable(w, steps[0]);
      if Spares(w, steps[0]) {
        RunUsable(Next(w, steps[0]), steps[1..]);
      } else if steps[1..] != [] {
        assert !AlwaysUsable(Next(w, steps[0]), steps[1..]);
      }
    }
  }

  /** MAIN RESULT.  In every state of a run, every cluster of which anything remains has an
      unrevoked credential, whether its create reported an error or not, if and only if no caller
      of such a create unwinds a cluster of which something remains. */
  lemma CredentialsStayUsable(w: World, steps: seq<Step>)
    requires Initial(w) && IsRun(w, steps)
    ensures AlwaysUsable(w, steps) <==> AllSpared(w, steps)
  {
    RunUsable(w, steps);
  }

  // ----- credentials that nothing records -----

  /** A secret that records a credential is gone only if the credential was revoked. */
  ghost predicate Kept(w: World) {
    forall id :: id in w.hist && id !in w.cloud.secrets ==> w.hist[id].cred == "" || w.hist[id].cred in w.cloud.revoked
  }

  /** The one step that can lose an unrevoked credential: a namespace collected although a
      cluster found alive in the pass has gone since and left its secret behind. */
  predicate Covered(w: World, s: Step)
    requires Enabled(w, s)
  {
    s.Gc? && PassCollects(w, s.p, s.managed, s.foreign) ==>
      forall id :: id in w.passes[s.p].alive && id in w.cloud.secrets ==>
        w.cloud.secrets[id].cred == "" || w.cloud.secrets[id].cred in w.cloud.revoked
  }

  lemma FinalizeKept(w: World, p: nat, id: Id, fault: Fault)
    requires Inv(w) && Kept(w) && Enabled(w, Finalize(p, id, fault))
    ensures Kept(Next(w, Finalize(p, id, fault)))
  {
    hide Visit;
    VisitEffect(w.cloud, id, w.hist[id], fault);
  }

  lemma GcKept(w: World, p: nat, managed: bool, foreign: bool)
    requires Inv(w) && Kept(w) && Enabled(w, Gc(p, managed, foreign))
    ensures Kept(Next(w, Gc(p, managed, foreign))) <==> Covered(w, Gc(p, managed, foreign))
  {
    if PassCollects(w, p, managed, foreign) {
      GcFindsOnlyAlive(w, p, managed, foreign);
    }
  }

  lemma StepKept(w: World, s: Step)
    requires Inv(w) && Kept(w) && Enabled(w, s)
    ensures Kept(Next(w, s)) <==> Covered(w, s)
  {
    if s.Finalize? {
      FinalizeKept(w, s.p, s.id, s.fault);
    } else if s.Gc? {
      GcKept(w, s.p, s.managed, s.foreign);
    }
  }

  ghost predicate AlwaysKept(w: World, steps: seq<Step>)
    requires IsRun(w, steps)
    decreases |steps|
  {
    Kept(w) && (steps == [] || AlwaysKept(Next(w, steps[0]), steps[1..]))
  }

  predicate AllCovered(w: World, steps: seq<Step>)
    requires IsRun(w, steps)
    decreases |steps|
  {
    steps == [] || (Covered(w, steps[0]) && AllCovered(Next(w, steps[0]), steps[1..]))
  }

  lemma {:induction false} RunKept(w: World, steps: seq<Step>)
    requires Inv(w) && Kept(w) && IsRun(w, steps)
    ensures AlwaysKept(w, steps) <==> AllCovered(w, steps)
    decreases |steps|
  {
    hide Inv, Next, Enabled, Kept, Covered;
    if steps != [] {
      StepKeeps(w, steps[0]);
      StepKept(w, steps[0]);
      if Covered(w, steps[0]) {
        RunKept(Next(w, steps[0]), steps[1..]);
      } else if steps[1..] != [] {
        assert !AlwaysKept(Next(w, steps[0]), steps[1..]);
      }
    }
  }

  /** MAIN RESULT.  Over a whole run, a secret that records a credential is removed only after
      a successful revoke, if and only if every namespace collected along the run was covered;
      the sweep itself, at any fault, never loses one. */
  lemma CredentialsAreKept(w: World, steps: seq<Step>)
    requires Initial(w) && IsRun(w, steps)
    ensures AlwaysKept(w, steps) <==> AllCovered(w, steps)
  {
    RunKept(w, steps);
  }

  // ----- the service's own calls are runs, and a run that loses a credential -----

  lemma {:induction false} Extend(w: World, steps: seq<Step>, s: Step)
    requires IsRun(w, steps) && Enabled(After(w, steps), s)
    ensures IsRun(w, steps + [s]) && After(w, steps + [s]) == Next(After(w, steps), s)
    decreases |steps|
  {
    hide Enabled, Next;
    if steps == [] {
      assert [s][1..] == [] && IsRun(Next(w, s), []);
      assert [] + [s] == [s];
    } else {
      Extend(Next(w, steps[0]), steps[1..], s);
      assert (steps + [s])[1..] == steps[1..] + [s];
    }
  }

  lemma Do(w: World, steps: seq<Step>, z: World, s: Step) returns (more: seq<Step>)
    requires IsRun(w, steps) && After(w, steps) == z && Enabled(z, s)
    ensures more == steps + [s] && IsRun(w, more) && After(w, more) == Next(z, s)
  {
    Extend(w, steps, s);
    more := steps + [s];
  }

  lemma NoSteps(w: World)
    ensures IsRun(w, []) && After(w, []) == w
  {
  }

  /** A create that is not interleaved with anything is a run, however it fails. */
  lemma CreateIsRun(w: World, id: Id, cred: Cred, secretFails: bool, appFails: bool) returns (steps: seq<Step>)
    requires Enabled(w, Begin(id, cred))
    ensures IsRun(w, steps) && After(w, steps).cloud == Created(w.cloud, id, cred, secretFails, appFails)
  {
    hide IsRun, After;
    NoSteps(w);
    steps := [];
    if secretFails { return; }
    steps := Do(w, steps, w, Begin(id, cred));
    steps := Do(w, steps, After(w, steps), if appFails then Fails(id, false) else Apply(id));
  }

  lemma SecretIsRecorded(w: World, id: Id)
    requires Inv(w) && id in w.cloud.secrets
    ensures id in w.hist && w.hist[id] == w.cloud.secrets[id]
  {
  }

  /** An undisturbed sweep over a fresh listing is a run, with the same counts. */
  lemma {:induction false} SweepIsRun(w: World, p: nat, ids: seq<Id>, faults: Id -> Fault) returns (steps: seq<Step>)
    requires Inv(w) && (forall id :: id in ids ==> id in w.cloud.secrets)
    requires forall i, j :: 0 <= i < j < |ids| ==> ids[i] != ids[j]
    ensures IsRun(w, steps)
    ensures var t, z := SweepAll(w.cloud, ids, w.cloud.secrets, faults), After(w, steps);
      && z.cloud == t.cloud && z.hist == w.hist && z.cloud.apps == w.cloud.apps
      && (!t.aborted ==> p in z.passes && z.passes[p].pending == t.pending && z.passes[p].reaped == t.reaped
                         && z.passes[p].known == w.hist.Keys && z.passes[p].alive <= w.cloud.apps.Keys
                         && forall id :: id in z.passes[p].todo <==> id in w.cloud.secrets && id !in ids)
    decreases |ids|
  {
    hide IsRun, After, Visit, Inv;
    if ids == [] {
      NoSteps(w);
      steps := Do(w, [], w, List(p));
    } else {
      var front, id := ids[..|ids| - 1], ids[|ids| - 1];
      steps := SweepIsRun(w, p, front, faults);
      var t := SweepAll(w.cloud, front, w.cloud.secrets, faults);
      if !t.aborted {
        assert id !in front;
        SecretIsRecorded(w, id);
        AliveHasApp(t.cloud, id, w.hist[id], faults(id));
        steps := Do(w, steps, After(w, steps), Finalize(p, id, faults(id)));
        assert forall d :: d in ids <==> d in front || d == id;
      }
    }
  }

  lemma AliveHasApp(c: Cloud, id: Id, rec: Secret, fault: Fault)
    ensures var (c', o) := Visit(c, id, rec, fault); c'.apps == c.apps && (o == Alive ==> id in c.apps)
  {
  }

  /** The whole undisturbed pass, with the namespace deletion that may end it, is a run that ends
      where `FinalizeNamespace` ends; and such a pass deletes the namespace only when no secret
      is left in it. */
  lemma PassIsRun(w: World, p: nat, ids: seq<Id>, faults: Id -> Fault, managed: bool, foreign: bool, end: EndFault) returns (steps: seq<Step>)
    requires Inv(w) && (forall id :: id in ids <==> id in w.cloud.secrets)
    requires forall i, j :: 0 <= i < j < |ids| ==> ids[i] != ids[j]
    ensures IsRun(w, steps)
    ensures var t := SweepAll(w.cloud, ids, w.cloud.secrets, faults);
      var deleted := !t.aborted && Collects(t.cloud, t.pending, t.reaped, managed, foreign) && EndLands(end);
      && After(w, steps).cloud == (if deleted then Emptied(t.cloud) else t.cloud)
      && (deleted ==> t.cloud.secrets == map[])
  {
    hide IsRun, After, Inv, SweepAll;
    steps := SweepIsRun(w, p, ids, faults);
    var t, z := SweepAll(w.cloud, ids, w.cloud.secrets, faults), After(w, steps);
    if !t.aborted && Collects(t.cloud, t.pending, t.reaped, managed, foreign) && EndLands(end) {
      assert z.passes[p].todo == {};
      RunKeeps(w, steps);
      GcFindsOnlyAlive(z, p, managed, foreign);
      steps := Do(w, steps, z, Gc(p, managed, foreign));
    }
  }

  lemma {:induction false} EndUsable(w: World, steps: seq<Step>)
    requires IsRun(w, steps) && AlwaysUsable(w, steps)
    ensures AllUsable(After(w, steps))
    decreases |steps|
  {
    hide Next, Enabled, AllUsable;
    if steps != [] {
      EndUsable(Next(w, steps[0]), steps[1..]);
    }
  }

  /** Such a run from an empty cluster: the answer to the last write of a create is lost, and the
      caller unwinds a cluster that is there. */
  lemma UnwindStrandsCluster(now: int, id: Id, cred: Cred) returns (w: World, steps: seq<Step>)
    requires id != "" && cred != ""
    ensures steps == [Begin(id, cred), Fails(id, true), Unwind(id)]
    ensures Initial(w) && IsRun(w, steps) && !AlwaysUsable(w, steps)
    ensures var z := After(w, steps); id in z.cloud.apps && id in z.cloud.secrets && z.cloud.secrets[id].cred in z.cloud.revoked
  {
    hide IsRun, After, AlwaysUsable;
    w := Empty(now);
    NoSteps(w);
    steps := Do(w, [], w, Begin(id, cred));
    steps := Do(w, steps, After(w, steps), Fails(id, true));
    steps := Do(w, steps, After(w, steps), Unwind(id));
    var z := After(w, steps);
    assert id in z.hist && Remains(z.cloud, id) && z.hist[id].cred in z.cloud.revoked;
    if AlwaysUsable(w, steps) {
      EndUsable(w, steps);
      assert false;
    }
  }

  lemma {:induction false} EndKept(w: World, steps: seq<Step>)
    requires IsRun(w, steps) && AlwaysKept(w, steps)
    ensures Kept(After(w, steps))
    decreases |steps|
  {
    hide Next, Enabled, Kept;
    if steps != [] {
      EndKept(Next(w, steps[0]), steps[1..]);
    }
  }

  /** Such a namespace deletion exists, on a run from an empty cluster: two clusters are created,
      one is deleted and ages, a pass reaps its secret after finding the other alive, and the
      other is deleted, cascade and all, before the pass looks at the Applications. */
  lemma GcLosesCredential(now: int, a: Id, b: Id, cred: Cred) returns (w: World, steps: seq<Step>)
    requires a != b && a != "" && b != "" && cred != ""
    ensures Initial(w) && IsRun(w, steps) && !AlwaysKept(w, steps)
    ensures steps == [Begin(a, ""), Apply(a), Begin(b, cred), Apply(b)] + [Delete(a), CascadeDone(a), Tick(GRACE)]
      + [List(0), Finalize(0, b, NoFault), Finalize(0, a, NoFault)] + [Delete(b), CascadeDone(b), Gc(0, true, false)]
  {
    hide IsRun, After, AlwaysKept;
    w := Empty(now);
    steps := OrphanArises(w, a, b, cred);
    steps := PassReaps(w, steps, a, b);
    var before := steps;
    steps := Do(w, steps, After(w, steps), Delete(b));
    steps := Do(w, steps, After(w, steps), CascadeDone(b));
    assert After(w, steps).cloud.apps == map[];
    steps := Do(w, steps, After(w, steps), Gc(0, true, false));
    assert steps == before + [Delete(b), CascadeDone(b), Gc(0, true, false)];
    var z := After(w, steps);
    assert b in z.hist && b !in z.cloud.secrets && z.hist[b].cred !in z.cloud.revoked;
    if AlwaysKept(w, steps) {
      EndKept(w, steps);
      assert false;
    }
  }

  /** An aged orphan without a credential and a live cluster with one, and nothing else. */
  predicate OrphanAndLive(z: World, a: Id, b: Id) {
    && a != b && z.hist.Keys == {a, b} && z.cloud.secrets == z.hist && z.cloud.apps == map[b := false] && z.cloud.planes == map[]
    && z.cloud.machines == map[] && z.cloud.revoked == {} && z.hist[a].cred == "" && z.hist[b].cred != "" && !Fresh(z, a) && !Fresh(z, b)
  }

  lemma OrphanArises(w: World, a: Id, b: Id, cred: Cred) returns (steps: seq<Step>)
    requires Initial(w) && w.cloud.revoked == {} && a != b && a != "" && b != "" && cred != ""
    ensures steps == [Begin(a, ""), Apply(a), Begin(b, cred), Apply(b)] + [Delete(a), CascadeDone(a), Tick(GRACE)]
    ensures IsRun(w, steps) && OrphanAndLive(After(w, steps), a, b)
  {
    hide IsRun, After;
    NoSteps(w);
    steps := Do(w, [], w, Begin(a, ""));
    steps := Do(w, steps, After(w, steps), Apply(a));
    steps := Do(w, steps, After(w, steps), Begin(b, cred));
    steps := Do(w, steps, After(w, steps), Apply(b));
    assert steps == [Begin(a, ""), Apply(a), Begin(b, cred), Apply(b)];
    steps := Do(w, steps, After(w, steps), Delete(a));
    steps := Do(w, steps, After(w, steps), CascadeDone(a));
    steps := Do(w, steps, After(w, steps), Tick(GRACE));
  }

  lemma PassReaps(w: World, steps: seq<Step>, a: Id, b: Id) returns (more: seq<Step>)
    requires IsRun(w, steps) && OrphanAndLive(After(w, steps), a, b)
    ensures more == steps + [List(0), Finalize(0, b, NoFault), Finalize(0, a, NoFault)] && IsRun(w, more)
    ensures var y, z := After(w, steps), After(w, more);
      && z.hist == y.hist && z.cloud == y.cloud.(secrets := y.cloud.secrets - {a})
      && 0 in z.passes && z.passes[0] == Pass({a, b}, {a, b}, {}, {b}, 0, 1)
  {
    hide IsRun, After;
    more := Do(w, steps, After(w, steps), List(0));
    more := Do(w, more, After(w, more), Finalize(0, b, NoFault));
    more := Do(w, more, After(w, more), Finalize(0, a, NoFault));
    assert more == steps + [List(0), Finalize(0, b, NoFault), Finalize(0, a, NoFault)];
  }
}
