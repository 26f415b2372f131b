/** Every interleaving of database creates (failing or crashing after any step), deletes,
    cascades and sweep passes, and what all of them keep. */
module NetShareRuns {
  import opened NetShare

  /** How far a create in flight has come. */
  datatype Stage = AtMarker | AtShare

  /** A sweep pass over a listing of markers taken once and never refreshed, and the databases
      whose create had begun when it was taken. */
  datatype Pass = Pass(known: set<Id>, listed: set<Id>, todo: set<Id>, alive: set<Id>, pending: nat, reaped: nat)

  /** The cluster, the calls in flight, and four histories: every marker ever written, the
      databases whose share step succeeded, those of them that found their network unshared, and
      those whose create then reported an error. */
  datatype World = World(
    cloud: Cloud,
    creating: map<Id, Stage>,
    passes: map<nat, Pass>,
    hist: map<Id, Marker>,
    shared: set<Id>,
    made: set<Id>,
    abandoned: set<Id>
  )

  datatype Step =
    | Tick(d: nat)
    | Begin(id: Id, net: Net)
    | Share(id: Id)
    | ShareFails(id: Id, landed: bool, rolledBack: bool)
    | Auth(id: Id)
    | Backup(id: Id)
    | Apply(id: Id)
    | Fails(id: Id, auth: bool, backup: bool, app: bool)
    | Unwind(id: Id)
    | Crash(id: Id)
    | Delete(id: Id)
    | CascadeDone(id: Id)
    | LbUp(id: Id)
    | LbDown(id: Id)
    | List(p: nat)
    | Finalize(p: nat, id: Id, fault: Fault)
    | Gc(p: nat, managed: bool, foreign: bool)

  predicate Fresh(w: World, id: Id)
    requires id in w.hist
  {
    Young(w.cloud, w.hist[id])
  }

  predicate Creating(w: World, id: Id, stage: Stage) {
    id in w.creating && w.creating[id] == stage && id in w.hist
  }

  /** The steps that write for a create happen inside the grace window of its marker; ids are
      never reused; and no create starts between a pass's listing and its namespace GC. */
  predicate Enabled(w: World, s: Step) {
    match s
    case Tick(_) => true
    case Begin(id, net) => id !in w.hist && net != ""
    case Share(id) => Creating(w, id, AtMarker) && Fresh(w, id)
    case ShareFails(id, landed, _) => Creating(w, id, AtMarker) && (landed ==> Fresh(w, id))
    case Auth(id) => Creating(w, id, AtShare) && Fresh(w, id)
    case Backup(id) => Creating(w, id, AtShare) && Fresh(w, id)
    case Apply(id) => Creating(w, id, AtShare) && Fresh(w, id)
    case Fails(id, auth, backup, app) => Creating(w, id, AtShare) && (auth || backup || app ==> Fresh(w, id))
    case Unwind(id) => id in w.abandoned && id in w.hist
    case Crash(id) => id in w.creating
    case Delete(id) => id in w.cloud.apps
    case CascadeDone(id) => id in w.cloud.apps && w.cloud.apps[id].terminating
    case LbUp(id) => id in w.cloud.apps
    case LbDown(id) => true
    case List(p) => true
    case Finalize(p, id, _) => p in w.passes && id in w.passes[p].todo && id in w.hist
    case Gc(p, _, _) => p in w.passes && w.passes[p].todo == {} && w.hist.Keys <= w.passes[p].known
  }

  function Recount(q: Pass, id: Id, o: Outcome): Pass {
    q.(todo := q.todo - {id},
       alive := if o == Alive then q.alive + {id} else q.alive,
       pending := if o == Pending then q.pending + 1 else q.pending,
       reaped := if o == Reaped then q.reaped + 1 else q.reaped)
  }

  /** The guards of `finalizeNamespace` and `gcNamespace` before the namespace is deleted. */
  predicate Collects(w: World, p: nat, managed: bool, foreign: bool)
    requires p in w.passes
  {
    Collectable(w.cloud, w.passes[p].pending, w.passes[p].reaped, managed, foreign)
  }

  function Next(w: World, s: Step): World
    requires Enabled(w, s)
  {
    var c := w.cloud;
    match s
    case Tick(d) => w.(cloud := c.(now := c.now + d))
    case Begin(id, net) =>
      var m := Marker(net, c.now);
      w.(cloud := c.(markers := c.markers[id := m]), hist := w.hist[id := m], creating := w.creating[id := AtMarker])
    case Share(id) =>
      w.(cloud := c.(shares := c.shares + {w.hist[id].net}), creating := w.creating[id := AtShare], shared := w.shared + {id},
         made := if w.hist[id].net in c.shares then w.made else w.made + {id})
    case ShareFails(id, landed, rolledBack) =>
      w.(cloud := c.(shares := if landed then c.shares + {w.hist[id].net} else c.shares,
                     markers := if rolledBack then c.markers - {id} else c.markers),
         creating := w.creating - {id})
    case Auth(id) => w.(cloud := c.(auths := c.auths + {id}))
    case Backup(id) => w.(cloud := c.(backups := c.backups + {id}))
    case Apply(id) =>
      w.(cloud := c.(apps := c.apps[id := App(w.hist[id].net, false)]), creating := w.creating - {id})
    case Fails(id, auth, backup, app) =>
      w.(cloud := c.(auths := if auth then c.auths + {id} else c.auths,
                     backups := if backup then c.backups + {id} else c.backups,
                     apps := if app then c.apps[id := App(w.hist[id].net, false)] else c.apps),
         creating := w.creating - {id}, abandoned := w.abandoned + {id})
    case Unwind(id) =>
      if id !in w.made || InUse(c, w.hist[id].net, id) then w else w.(cloud := c.(shares := c.shares - {w.hist[id].net}))
    case Crash(id) => w.(creating := w.creating - {id})
    case Delete(id) => w.(cloud := c.(apps := c.apps[id := c.apps[id].(terminating := true)]))
    case CascadeDone(id) => w.(cloud := c.(apps := c.apps - {id}))
    case LbUp(id) => w.(cloud := c.(lbs := c.lbs + {id}))
    case LbDown(id) => w.(cloud := c.(lbs := c.lbs - {id}))
    case List(p) => w.(passes := w.passes[p := Pass(w.hist.Keys, c.markers.Keys, c.markers.Keys, {}, 0, 0)])
    case Finalize(p, id, fault) =>
      var (c', o) := Visit(c, id, w.hist[id], fault);
      w.(cloud := c', passes := if o == Aborted then w.passes - {p} else w.passes[p := Recount(w.passes[p], id, o)])
    case Gc(p, managed, foreign) =>
      var done := w.passes - {p};
      if Collects(w, p, managed, foreign) then w.(cloud := Emptied(c), passes := done)
      else w.(passes := done)
  }

  /** A cluster nobody has used. */
  function Empty(now: int): World {
    World(Cloud(now, map[], {}, {}, map[], {}, {}), map[], map[], map[], {}, {}, {})
  }

  // ----- runs -----

  predicate Initial(w: World) {
    && w.cloud.markers == map[] && w.cloud.apps == map[] && w.cloud.auths == {} && w.cloud.shares == {}
    && w.creating == map[] && w.passes == map[] && w.hist == map[] && w.shared == {} && w.made == {} && w.abandoned == {}
  }

  predicate IsRun(w: World, steps: seq<Step>)
    decreases |steps|
  {
    steps == [] || (Enabled(w, steps[0]) && IsRun(Next(w, steps[0]), steps[1..]))
  }

  function After(w: World, steps: seq<Step>): World
    requires IsRun(w, steps)
    decreases |steps|
  {
    if steps == [] then w else After(Next(w, steps[0]), steps[1..])
  }

  // ----- what every step keeps -----

  ghost predicate Records(w: World) {
    && (forall id :: id in w.cloud.markers ==> id in w.hist && w.hist[id] == w.cloud.markers[id])
    && (forall id :: id in w.hist ==> w.hist[id].net != "" && w.hist[id].created <= w.cloud.now)
  }

  /** An Application implies its marker, and so does an auth secret. */
  ghost predicate Marked(w: World) {
    && (forall id :: id in w.cloud.apps ==> id in w.cloud.markers && w.cloud.markers[id].net == w.cloud.apps[id].net)
    && w.cloud.auths <= w.cloud.markers.Keys
  }

  ghost predicate InFlight(w: World) {
    && (forall id :: id in w.creating ==> id in w.hist && id !in w.cloud.apps && id !in w.abandoned)
    && (forall id :: id in w.creating && Fresh(w, id) ==> id in w.cloud.markers)
    && (forall id :: id in w.creating ==> (w.creating[id] == AtShare <==> id in w.shared))
  }

  /** A database whose share step is done, which was not given up, and which is in its grace
      window or has an Application, live or terminating. */
  predicate NeedsShare(w: World, id: Id) {
    id in w.shared && id !in w.abandoned && id in w.hist && (Fresh(w, id) || id in w.cloud.apps)
  }

  /** Only databases whose share step is done have an auth secret or an Application, or were
      given up. */
  ghost predicate Tracked(w: World) {
    w.shared <= w.hist.Keys && w.abandoned <= w.shared && w.cloud.apps.Keys <= w.shared && w.cloud.auths <= w.shared
  }

  /** Its network is shared, and its marker says so. */
  ghost predicate Protected(w: World) {
    forall id :: NeedsShare(w, id) ==> w.hist[id].net in w.cloud.shares && id in w.cloud.markers
  }

  /** A marker that a pass has listed and visited but not reaped was found alive or pending. */
  ghost predicate PassOk(w: World, q: Pass) {
    && q.todo <= q.listed <= q.known <= w.hist.Keys && q.alive <= w.hist.Keys
    && (forall id :: id in q.alive ==> !Fresh(w, id))
    && (forall id :: id in w.cloud.markers && id in q.known && id !in q.todo && id !in q.alive ==> q.pending > 0)
  }

  ghost predicate PassesOk(w: World) {
    forall p :: p in w.passes ==> PassOk(w, w.passes[p])
  }

  /** What concerns databases one by one. */
  ghost predicate Core(w: World) {
    Records(w) && Marked(w) && InFlight(w) && Tracked(w)
  }

  ghost predicate Inv(w: World) {
    Core(w) && Protected(w) && PassesOk(w)
  }

  /** Passes in flight stay sound when time passes and only new ids gain a marker. */
  lemma PassesKept(w: World, w': World)
    requires PassesOk(w) && w'.passes == w.passes && w.cloud.now <= w'.cloud.now
    requires forall id :: id in w.hist ==> id in w'.hist && w'.hist[id] == w.hist[id]
    requires forall id :: id in w'.cloud.markers ==> id in w.cloud.markers || id !in w.hist
    ensures PassesOk(w')
  {
    forall k | k in w'.passes ensures PassOk(w', w'.passes[k]) {
      assert PassOk(w, w.passes[k]);
    }
  }

  /** What a finalize step does to the cluster, whatever goes wrong. */
  lemma VisitEffect(c: Cloud, id: Id, rec: Marker, fault: Fault)
    ensures var (c', o) := Visit(c, id, rec, fault);
      && c'.now == c.now && c'.apps == c.apps && c'.lbs == c.lbs && c'.backups == c.backups
      && c'.markers == (if o == Reaped then c.markers - {id} else c.markers)
      && c'.auths <= c.auths && (o == Reaped ==> id !in c'.auths)
      && (c'.shares == c.shares || (c'.shares == c.shares - {rec.net} && !InUse(c, rec.net, id)))
      && (o == Reaped && rec.net != "" && c'.shares == c.shares && rec.net in c.shares ==> InUse(c, rec.net, id))
      && (o == Reaped || c'.shares != c.shares ==> !Young(c, rec) && id !in c.apps)
      && (o == Alive ==> !Young(c, rec) && id in c.apps)
  {
  }

  /** A sibling that needs the network is always seen by `networkInUse`. */
  lemma SiblingIsSeen(w: World, id: Id, exclude: Id)
    requires Records(w) && Marked(w) && Protected(w) && NeedsShare(w, id) && id != exclude
    ensures InUse(w.cloud, w.hist[id].net, exclude)
  {
    assert id in w.cloud.markers && w.cloud.markers[id] == w.hist[id];
  }

  lemma FinalizeKeepsPasses(w: World, p: nat, id: Id, fault: Fault)
    requires Records(w) && PassesOk(w) && Enabled(w, Finalize(p, id, fault))
    ensures PassesOk(Next(w, Finalize(p, id, fault)))
  {
    hide Visit, InUse;
    VisitEffect(w.cloud, id, w.hist[id], fault);
    var w' := Next(w, Finalize(p, id, fault));
    forall k | k in w'.passes ensures PassOk(w', w'.passes[k]) {
      assert PassOk(w, w.passes[k]);
    }
  }

  lemma FinalizeKeeps(w: World, p: nat, id: Id, fault: Fault)
    requires Inv(w) && Enabled(w, Finalize(p, id, fault))
    ensures Inv(Next(w, Finalize(p, id, fault)))
  {
    hide Visit, InUse, PassesOk, Protected;
    VisitEffect(w.cloud, id, w.hist[id], fault);
    FinalizeProtects(w, p, id, fault);
    FinalizeKeepsPasses(w, p, id, fault);
  }

  lemma FinalizeProtects(w: World, p: nat, id: Id, fault: Fault)
    requires Records(w) && Marked(w) && InFlight(w) && Tracked(w) && Protected(w) && Enabled(w, Finalize(p, id, fault))
    ensures Protected(Next(w, Finalize(p, id, fault)))
  {
    hide Visit, InUse;
    VisitEffect(w.cloud, id, w.hist[id], fault);
    var w' := Next(w, Finalize(p, id, fault));
    forall d | NeedsShare(w', d) ensures w'.hist[d].net in w'.cloud.shares && d in w'.cloud.markers {
      assert NeedsShare(w, d);
      if d != id { SiblingIsSeen(w, d, id); }
    }
  }

  lemma UnwindKeeps(w: World, id: Id)
    requires Inv(w) && Enabled(w, Unwind(id))
    ensures Inv(Next(w, Unwind(id)))
  {
    hide PassesOk;
    hide InUse;
    var w' := Next(w, Unwind(id));
    forall d | NeedsShare(w', d) ensures w'.hist[d].net in w'.cloud.shares {
      assert NeedsShare(w, d);
      SiblingIsSeen(w, d, id);
    }
    PassesKept(w, w');
  }

  /** Nothing a collected namespace loses is still needed. */
  lemma GcKeeps(w: World, p: nat, managed: bool, foreign: bool)
    requires Inv(w) && Enabled(w, Gc(p, managed, foreign))
    ensures Inv(Next(w, Gc(p, managed, foreign)))
  {
    var w' := Next(w, Gc(p, managed, foreign));
    if Collects(w, p, managed, foreign) {
      GcFindsOnlyAlive(w, p, managed, foreign);
      forall id | NeedsShare(w', id) ensures false {
        assert NeedsShare(w, id);
      }
    }
    forall k | k in w'.passes ensures PassOk(w', w'.passes[k]) {
      assert PassOk(w, w.passes[k]);
    }
  }

  /** When a pass collects the namespace, every marker still there belongs to a database that
      this very pass found alive and that has lost its Application since. */
  lemma GcFindsOnlyAlive(w: World, p: nat, managed: bool, foreign: bool)
    requires Inv(w) && Enabled(w, Gc(p, managed, foreign)) && Collects(w, p, managed, foreign)
    ensures w.cloud.markers.Keys <= w.passes[p].alive
    ensures forall id :: id in w.cloud.markers ==> !Fresh(w, id)
    ensures w.cloud.apps == map[] && !foreign
  {
    assert PassOk(w, w.passes[p]);
    forall id | id in w.cloud.markers ensures id in w.passes[p].alive { assert id in w.hist; }
  }

  /** Protection survives every step that takes no share and no marker away: whoever needs the
      share afterwards needed it before. */
  lemma ProtectedKept(w: World, w': World)
    requires Protected(w) && w'.hist == w.hist && w'.shared == w.shared && w.abandoned <= w'.abandoned
    requires w'.cloud.markers == w.cloud.markers && w'.cloud.shares == w.cloud.shares && w.cloud.now <= w'.cloud.now
    requires forall id :: id in w'.cloud.apps && id !in w.cloud.apps && id !in w'.abandoned ==> id in w.hist && Fresh(w, id)
    ensures Protected(w')
  {
    forall d | NeedsShare(w', d) ensures w'.hist[d].net in w'.cloud.shares && d in w'.cloud.markers { assert NeedsShare(w, d); }
  }

  lemma ClockKeeps(w: World, d: nat)
    requires Inv(w)
    ensures Inv(Next(w, Tick(d)))
  {
    hide PassesOk, Protected;
    var w' := Next(w, Tick(d));
    forall id | id in w.hist && Fresh(w', id) ensures Fresh(w, id) {}
    PassesKept(w, w');
    ProtectedKept(w, w');
  }

  lemma BeginKeeps(w: World, id: Id, net: Net)
    requires Inv(w) && Enabled(w, Begin(id, net))
    ensures Inv(Next(w, Begin(id, net)))
  {
    BeginProtects(w, id, net);
    BeginCore(w, id, net);
    hide PassesOk, Protected, Core;
    PassesKept(w, Next(w, Begin(id, net)));
  }

  lemma BeginCore(w: World, id: Id, net: Net)
    requires Core(w) && Enabled(w, Begin(id, net))
    ensures Core(Next(w, Begin(id, net)))
  {
  }

  lemma BeginProtects(w: World, id: Id, net: Net)
    requires Core(w) && Protected(w) && Enabled(w, Begin(id, net))
    ensures Protected(Next(w, Begin(id, net)))
  {
    var w' := Next(w, Begin(id, net));
    forall d | NeedsShare(w', d) ensures w'.hist[d].net in w'.cloud.shares && d in w'.cloud.markers { assert NeedsShare(w, d); }
  }

  lemma ShareKeeps(w: World, s: Step)
    requires Inv(w) && Enabled(w, s) && s.Share?
    ensures Inv(Next(w, s))
  {
    hide PassesOk;
    var w' := Next(w, s);
    PassesKept(w, w');
    forall d | NeedsShare(w', d) ensures w'.hist[d].net in w'.cloud.shares && d in w'.cloud.markers { assert d == s.id || NeedsShare(w, d); }
  }

  lemma ShareFailsKeeps(w: World, s: Step)
    requires Inv(w) && Enabled(w, s) && s.ShareFails?
    ensures Inv(Next(w, s))
  {
    hide PassesOk;
    var w' := Next(w, s);
    PassesKept(w, w');
    forall d | NeedsShare(w', d) ensures w'.hist[d].net in w'.cloud.shares && d in w'.cloud.markers { assert NeedsShare(w, d); }
  }

  lemma WriteCore(w: World, s: Step)
    requires Core(w) && Enabled(w, s) && (s.Auth? || s.Backup? || s.Apply?)
    ensures Core(Next(w, s))
  {
  }

  lemma WriteKeeps(w: World, s: Step)
    requires Inv(w) && Enabled(w, s) && (s.Auth? || s.Backup? || s.Apply?)
    ensures Inv(Next(w, s))
  {
    WriteCore(w, s);
    hide PassesOk, Protected, Core;
    var w' := Next(w, s);
    PassesKept(w, w');
    ProtectedKept(w, w');
  }

  lemma FailCore(w: World, s: Step)
    requires Core(w) && Enabled(w, s) && (s.Fails? || s.Crash?)
    ensures Core(Next(w, s))
  {
  }

  lemma FailKeeps(w: World, s: Step)
    requires Inv(w) && Enabled(w, s) && (s.Fails? || s.Crash?)
    ensures Inv(Next(w, s))
  {
    FailCore(w, s);
    hide PassesOk, Protected, Core;
    var w' := Next(w, s);
    PassesKept(w, w');
    ProtectedKept(w, w');
  }

  lemma DeleteCore(w: World, s: Step)
    requires Core(w) && Enabled(w, s) && (s.Delete? || s.CascadeDone?)
    ensures Core(Next(w, s))
  {
  }

  lemma DeleteKeeps(w: World, s: Step)
    requires Inv(w) && Enabled(w, s) && (s.Delete? || s.CascadeDone?)
    ensures Inv(Next(w, s))
  {
    DeleteCore(w, s);
    hide PassesOk, Protected, Core;
    var w' := Next(w, s);
    PassesKept(w, w');
    ProtectedKept(w, w');
  }

  lemma BalancerCore(w: World, s: Step)
    requires Core(w) && Enabled(w, s) && (s.LbUp? || s.LbDown?)
    ensures Core(Next(w, s))
  {
  }

  lemma BalancerKeeps(w: World, s: Step)
    requires Inv(w) && Enabled(w, s) && (s.LbUp? || s.LbDown?)
    ensures Inv(Next(w, s))
  {
    BalancerCore(w, s);
    hide PassesOk, Protected, Core;
    var w' := Next(w, s);
    PassesKept(w, w');
    ProtectedKept(w, w');
  }

  lemma ListKeeps(w: World, p: nat)
    requires Inv(w)
    ensures Inv(Next(w, List(p)))
  {
    hide Protected;
    var w' := Next(w, List(p));
    forall k | k in w'.passes ensures PassOk(w', w'.passes[k]) {
      if k != p { assert PassOk(w, w.passes[k]); }
    }
    ProtectedKept(w, w');
  }

  lemma StepKeeps(w: World, s: Step)
    requires Inv(w) && Enabled(w, s)
    ensures Inv(Next(w, s))
  {
    hide Inv, Next, Enabled;
    match s
    case Tick(d) => ClockKeeps(w, d);
    case Begin(id, net) => BeginKeeps(w, id, net);
    case Share(_) => ShareKeeps(w, s);
    case ShareFails(_, _, _) => ShareFailsKeeps(w, s);
    case Auth(_) => WriteKeeps(w, s);
    case Backup(_) => WriteKeeps(w, s);
    case Apply(_) => WriteKeeps(w, s);
    case Fails(_, _, _, _) => FailKeeps(w, s);
    case Crash(_) => FailKeeps(w, s);
    case Unwind(id) => UnwindKeeps(w, id);
    case Delete(_) => DeleteKeeps(w, s);
    case CascadeDone(_) => DeleteKeeps(w, s);
    case LbUp(_) => BalancerKeeps(w, s);
    case LbDown(_) => BalancerKeeps(w, s);
    case List(p) => ListKeeps(w, p);
    case Finalize(p, id, fault) => FinalizeKeeps(w, p, id, fault);
    case Gc(p, managed, foreign) => GcKeeps(w, p, managed, foreign);
  }

  lemma {:induction false} RunKeeps(w: World, steps: seq<Step>)
    requires Inv(w) && IsRun(w, steps)
    ensures Inv(After(w, steps))
    decreases |steps|
  {
    hide Inv, Next, Enabled;
    if steps != [] {
      StepKeeps(w, steps[0]);
      RunKeeps(Next(w, steps[0]), steps[1..]);
    }
  }

  /** MAIN RESULT.  In every state of every run: an Application has its marker, an auth secret
      has its marker, and a database whose share step is done keeps its network shared while it
      is in its grace window or has an Application, whatever orphans the sweeps finalize on
      the same network meanwhile. */
  lemma SharesStay(w: World, steps: seq<Step>)
    requires Initial(w) && IsRun(w, steps)
    ensures var z := After(w, steps);
      && (forall id :: id in z.cloud.apps ==> id in z.cloud.markers && z.cloud.markers[id].net == z.cloud.apps[id].net)
      && (forall id :: id in z.cloud.auths ==> id in z.cloud.markers)
      && (forall id :: NeedsShare(z, id) ==> z.hist[id].net in z.cloud.shares)
  {
    RunKeeps(w, steps);
  }

  /** A pass deletes the namespace only when no Application of the project and no other
      service's secret is left, and the only markers it can lose are aged ones of databases
      that the pass itself found alive; a pass that found none alive loses none. */
  lemma NamespaceCollected(w: World, steps: seq<Step>, p: nat, managed: bool, foreign: bool)
    requires Initial(w) && IsRun(w, steps)
    requires Enabled(After(w, steps), Gc(p, managed, foreign)) && Collects(After(w, steps), p, managed, foreign)
    ensures var z := After(w, steps);
      && z.cloud.apps == map[] && managed && !foreign
      && (forall id :: id in z.cloud.markers ==> id in z.passes[p].alive && !Young(z.cloud, z.cloud.markers[id]))
      && (z.passes[p].alive == {} ==> z.cloud.markers == map[])
  {
    RunKeeps(w, steps);
    GcFindsOnlyAlive(After(w, steps), p, managed, foreign);
  }

  // ----- shares that no marker records -----

  predicate RecordedBy(c: Cloud, net: Net, exclude: set<Id>) {
    exists id :: id in c.markers && id !in exclude && c.markers[id].net == net
  }

  /** The two steps that can lose the last record of a share: a marker rolled back although
      its network is shared and no other marker records it, and a namespace collected although
      a database found alive in the pass has gone since and left its marker and share behind. */
  predicate Covered(w: World, s: Step)
    requires Enabled(w, s)
  {
    match s
    case ShareFails(id, landed, rolledBack) =>
      rolledBack && (landed || w.hist[id].net in w.cloud.shares) ==> RecordedBy(w.cloud, w.hist[id].net, {id})
    case Gc(p, managed, foreign) =>
      Collects(w, p, managed, foreign) ==>
        forall id :: id in w.passes[p].alive && id in w.cloud.markers ==> w.cloud.markers[id].net !in w.cloud.shares
    case _ => true
  }

  lemma ReapedIsRecorded(w: World, p: nat, id: Id, fault: Fault)
    requires Inv(w) && Recorded(w.cloud) && Enabled(w, Finalize(p, id, fault))
    ensures Recorded(Next(w, Finalize(p, id, fault)).cloud)
  {
    var c, rec := w.cloud, w.hist[id];
    VisitEffect(c, id, rec, fault);
    var (c', o) := Visit(c, id, rec, fault);
    hide Visit;
    forall net | net in c'.shares ensures exists d :: d in c'.markers && c'.markers[d].net == net {
      var d :| d in c.markers && c.markers[d].net == net;
      if o == Reaped && d == id {
        assert net == rec.net && InUse(c, net, id);
        if LiveSibling(c, net, id) {
          var e :| e in c.apps && e != id && !c.apps[e].terminating && c.apps[e].net == net;
          assert e in c'.markers && c'.markers[e].net == net;
        } else {
          var e :| e in c.markers && e != id && c.markers[e].net == net;
          assert e in c'.markers && c'.markers[e].net == net;
        }
      } else {
        assert d in c'.markers && c'.markers[d].net == net;
      }
    }
  }

  lemma RollbackRecorded(w: World, s: Step)
    requires Inv(w) && Recorded(w.cloud) && Enabled(w, s) && s.ShareFails?
    ensures Recorded(Next(w, s).cloud) <==> Covered(w, s)
  {
    var c, c', net := w.cloud, Next(w, s).cloud, w.hist[s.id].net;
    if Recorded(c') && s.rolledBack && net in c'.shares {
      var d :| d in c'.markers && c'.markers[d].net == net;
      assert d in c.markers && d !in {s.id} && c.markers[d].net == net;
    }
    if Covered(w, s) {
      forall n | n in c'.shares ensures exists d :: d in c'.markers && c'.markers[d].net == n {
        if n == net && s.rolledBack {
          assert RecordedBy(c, net, {s.id});
          var d :| d in c.markers && d !in {s.id} && c.markers[d].net == n;
          assert d in c'.markers && c'.markers[d].net == n;
        } else if n in c.shares {
          var d :| d in c.markers && c.markers[d].net == n;
          assert d in c'.markers && c'.markers[d].net == n;
        } else {
          assert s.id in c'.markers && c'.markers[s.id].net == n;
        }
      }
    }
  }

  lemma GcRecorded(w: World, p: nat, managed: bool, foreign: bool)
    requires Inv(w) && Recorded(w.cloud) && Enabled(w, Gc(p, managed, foreign))
    ensures Recorded(Next(w, Gc(p, managed, foreign)).cloud) <==> Covered(w, Gc(p, managed, foreign))
  {
    var c := w.cloud;
    if Collects(w, p, managed, foreign) {
      GcFindsOnlyAlive(w, p, managed, foreign);
      if Covered(w, Gc(p, managed, foreign)) {
        assert c.shares == {};
      }
    }
  }

  /** The steps that neither remove a marker nor lose one. */
  lemma OtherRecorded(w: World, s: Step)
    requires Inv(w) && Recorded(w.cloud) && Enabled(w, s) && !s.ShareFails? && !s.Gc? && !s.Finalize?
    ensures Recorded(Next(w, s).cloud)
  {
    var c, c' := w.cloud, Next(w, s).cloud;
    forall n | n in c'.shares ensures exists d :: d in c'.markers && c'.markers[d].net == n {
      if n in c.shares {
        var d :| d in c.markers && c.markers[d].net == n;
        assert d in c'.markers && c'.markers[d].net == n;
      } else {
        assert s.Share? && s.id in c'.markers && c'.markers[s.id].net == n;
      }
    }
  }

  lemma StepRecorded(w: World, s: Step)
    requires Inv(w) && Recorded(w.cloud) && Enabled(w, s)
    ensures Recorded(Next(w, s).cloud) <==> Covered(w, s)
  {
    hide Inv, Next, Recorded;
    match s
    case ShareFails(_, _, _) => RollbackRecorded(w, s);
    case Gc(p, managed, foreign) => GcRecorded(w, p, managed, foreign);
    case Finalize(p, id, fault) => ReapedIsRecorded(w, p, id, fault);
    case _ => OtherRecorded(w, s);
  }

  /** Every state along the run, including the first and the last, records its shares. */
  ghost predicate AlwaysRecorded(w: World, steps: seq<Step>)
    requires IsRun(w, steps)
    decreases |steps|
  {
    Recorded(w.cloud) && (steps == [] || AlwaysRecorded(Next(w, steps[0]), steps[1..]))
  }

  predicate AllCovered(w: World, steps: seq<Step>)
    requires IsRun(w, steps)
    decreases |steps|
  {
    steps == [] || (Covered(w, steps[0]) && AllCovered(Next(w, steps[0]), steps[1..]))
  }

  lemma {:induction false} RunRecorded(w: World, steps: seq<Step>)
    requires Inv(w) && Recorded(w.cloud) && IsRun(w, steps)
    ensures AlwaysRecorded(w, steps) <==> AllCovered(w, steps)
    decreases |steps|
  {
    hide Inv, Next, Enabled, Recorded, Covered;
    if steps != [] {
      StepKeeps(w, steps[0]);
      StepRecorded(w, steps[0]);
      if Covered(w, steps[0]) {
        RunRecorded(Next(w, steps[0]), steps[1..]);
      } else if steps[1..] != [] {
        assert !AlwaysRecorded(Next(w, steps[0]), steps[1..]);
      }
    }
  }

  /** MAIN RESULT.  A share that exists always has a marker recording it, over a whole run,
      if and only if every marker rolled back and every namespace collected along the run was
      covered; sweeps, crashes, deletes and late failures never lose a record. */
  lemma SharesAreRecorded(w: World, steps: seq<Step>)
    requires Initial(w) && IsRun(w, steps)
    ensures AlwaysRecorded(w, steps) <==> AllCovered(w, steps)
  {
    RunRecorded(w, steps);
  }

  // ----- the service's own calls are runs -----

  lemma {:induction false} Extend(w: World, steps: seq<Step>, s: Step)
    requires IsRun(w, steps) && Enabled(After(w, steps), s)
    ensures IsRun(w, steps + [s]) && After(w, steps + [s]) == Next(After(w, steps), s)
    decreases |steps|
  {
    hide Enabled, Next;
    if steps == [] {
      assert [s][1..] == [] && IsRun(Next(w, s), []);
      assert [] + [s] == [s];
    } else {
      Extend(Next(w, steps[0]), steps[1..], s);
      assert (steps + [s])[1..] == steps[1..] + [s];
    }
  }

  /** One more step of a run, and the state it leads to. */
  lemma Do(w: World, steps: seq<Step>, z: World, s: Step) returns (more: seq<Step>)
    requires IsRun(w, steps) && After(w, steps) == z && Enabled(z, s)
    ensures more == steps + [s] && IsRun(w, more) && After(w, more) == Next(z, s)
  {
    Extend(w, steps, s);
    more := steps + [s];
  }

  /** A create that is not interleaved with anything is a run, however it fails. */
  lemma CreateIsRun(w: World, id: Id, net: Net, n: Needs, fault: CreateFault) returns (steps: seq<Step>)
    requires id !in w.hist && net != ""
    ensures IsRun(w, steps) && After(w, steps).cloud == Created(w.cloud, id, net, n, fault)
  {
    hide IsRun, After, Passed;
    NoSteps(w);
    steps := [];
    var k := Passed(n, fault);
    EarlyStop(n, fault);
    if k == 0 { return; }
    if k == 1 {
      steps := Do(w, steps, w, Begin(id, net));
      steps := Do(w, steps, After(w, steps), ShareFails(id, false, fault == ShareFailsRollback));
      return;
    }
    steps := Opens(w, id, net);
    if k == 2 {
      steps := Do(w, steps, After(w, steps), Fails(id, false, false, false));
    } else {
      steps := FinishIsRun(w, steps, id, net, n, k);
    }
  }

  /** The marker and the share. */
  lemma Opens(w: World, id: Id, net: Net) returns (steps: seq<Step>)
    requires id !in w.hist && net != ""
    ensures IsRun(w, steps)
    ensures var z := After(w, steps); Creating(z, id, AtShare) && Fresh(z, id) && z.hist[id].net == net
    ensures After(w, steps).cloud == w.cloud.(markers := w.cloud.markers[id := Marker(net, w.cloud.now)], shares := w.cloud.shares + {net})
  {
    hide IsRun, After;
    NoSteps(w);
    steps := Do(w, [], w, Begin(id, net));
    steps := Do(w, steps, After(w, steps), Share(id));
  }

  lemma EarlyStop(n: Needs, fault: CreateFault)
    ensures Passed(n, fault) == 1 <==> fault == ShareFailsKeep || fault == ShareFailsRollback
  {
  }

  /** The writes after the share step. */
  lemma FinishIsRun(w: World, steps: seq<Step>, id: Id, net: Net, n: Needs, k: nat) returns (more: seq<Step>)
    requires IsRun(w, steps) && 3 <= k <= 5
    requires var z := After(w, steps); Creating(z, id, AtShare) && Fresh(z, id) && z.hist[id].net == net
    ensures IsRun(w, more)
    ensures var c := After(w, steps).cloud;
      After(w, more).cloud == c.(auths := if n.auth then c.auths + {id} else c.auths,
                                 backups := if k >= 4 && NeedsBackup(n) then c.backups + {id} else c.backups,
                                 apps := if k == 5 then c.apps[id := App(net, false)] else c.apps)
  {
    hide IsRun, After;
    more := steps;
    if n.auth { more := Do(w, more, After(w, more), Auth(id)); }
    if k >= 4 && NeedsBackup(n) { more := Do(w, more, After(w, more), Backup(id)); }
    more := Do(w, more, After(w, more), if k == 5 then Apply(id) else Fails(id, false, false, false));
  }

  lemma NoSteps(w: World)
    ensures IsRun(w, []) && After(w, []) == w
  {
  }

  /** An undisturbed sweep over a fresh listing is a run: the listing and then one step per
      marker, with the same counts, ending where the sweep ends. */
  lemma {:induction false} SweepIsRun(w: World, p: nat, ids: seq<Id>, faults: Id -> Fault) returns (steps: seq<Step>)
    requires Inv(w) && (forall id :: id in ids ==> id in w.cloud.markers)
    requires forall i, j :: 0 <= i < j < |ids| ==> ids[i] != ids[j]
    ensures IsRun(w, steps)
    ensures var t, z := SweepAll(w.cloud, ids, w.cloud.markers, faults), After(w, steps);
      && z.cloud == t.cloud && z.hist == w.hist && z.cloud.apps == w.cloud.apps
      && (!t.aborted ==> p in z.passes && z.passes[p].pending == t.pending && z.passes[p].reaped == t.reaped
                         && z.passes[p].known == w.hist.Keys && z.passes[p].alive <= w.cloud.apps.Keys
                         && forall id :: id in z.passes[p].todo <==> id in w.cloud.markers && id !in ids)
    decreases |ids|
  {
    hide IsRun, After, Visit, Inv;
    if ids == [] {
      NoSteps(w);
      Extend(w, [], List(p));
      steps := [] + [List(p)];
    } else {
      var front, id := ids[..|ids| - 1], ids[|ids| - 1];
      steps := SweepIsRun(w, p, front, faults);
      var t := SweepAll(w.cloud, front, w.cloud.markers, faults);
      if !t.aborted {
        assert id !in front;
        assert w.hist[id] == w.cloud.markers[id] && id in w.hist by { MarkerIsRecorded(w, id); }
        VisitEffect(t.cloud, id, w.hist[id], faults(id));
        var s := Finalize(p, id, faults(id));
        Extend(w, steps, s);
        steps := steps + [s];
        assert forall d :: d in ids <==> d in front || d == id;
      }
    }
  }

  /** The whole undisturbed pass, with the namespace deletion that may end it, is a run that
      ends where `FinalizeNamespace` ends; and such a pass deletes the namespace only when no
      marker is left in it. */
  lemma PassIsRun(w: World, p: nat, ids: seq<Id>, faults: Id -> Fault, managed: bool, foreign: bool, end: EndFault) returns (steps: seq<Step>)
    requires Inv(w) && (forall id :: id in ids <==> id in w.cloud.markers)
    requires forall i, j :: 0 <= i < j < |ids| ==> ids[i] != ids[j]
    ensures IsRun(w, steps)
    ensures var t := SweepAll(w.cloud, ids, w.cloud.markers, faults);
      var deleted := !t.aborted && Collectable(t.cloud, t.pending, t.reaped, managed, foreign) && EndLands(end);
      && After(w, steps).cloud == (if deleted then Emptied(t.cloud) else t.cloud)
      && (deleted ==> t.cloud.markers == map[])
  {
    hide IsRun, After, Inv, SweepAll;
    steps := SweepIsRun(w, p, ids, faults);
    var t, z := SweepAll(w.cloud, ids, w.cloud.markers, faults), After(w, steps);
    if !t.aborted && Collectable(t.cloud, t.pending, t.reaped, managed, foreign) && EndLands(end) {
      assert z.passes[p].todo == {};
      RunKeeps(w, steps);
      GcFindsOnlyAlive(z, p, managed, foreign);
      steps := Do(w, steps, z, Gc(p, managed, foreign));
    }
  }

  lemma MarkerIsRecorded(w: World, id: Id)
    requires Inv(w) && id in w.cloud.markers
    ensures id in w.hist && w.hist[id] == w.cloud.markers[id]
  {
  }

  // ----- records that are lost -----

  lemma {:induction false} EndRecorded(w: World, steps: seq<Step>)
    requires IsRun(w, steps) && AlwaysRecorded(w, steps)
    ensures Recorded(After(w, steps).cloud)
    decreases |steps|
  {
    hide Next, Enabled, Recorded;
    if steps != [] {
      EndRecorded(Next(w, steps[0]), steps[1..]);
    }
  }

  /** An aged orphan, all its cascade finished, whose marker alone records a shared network. */
  predicate LoneOrphan(w: World, id: Id) {
    && id in w.cloud.markers && id in w.hist && w.hist[id] == w.cloud.markers[id] && !Fresh(w, id)
    && id !in w.cloud.apps && id !in w.cloud.lbs && w.hist[id].net != "" && w.hist[id].net in w.cloud.shares
    && forall d :: d in w.cloud.markers && d != id ==> w.cloud.markers[d].net != w.hist[id].net
  }

  /** A failed share can lose an orphan's share: the sweep reaps the orphan without revoking,
      because a create on the same network is in its grace window, and that create's share
      step then fails, without having created anything, and rolls its own marker back. */
  lemma RollbackLosesShare(w: World, steps: seq<Step>, id: Id, other: Id, p: nat) returns (more: seq<Step>)
    requires IsRun(w, steps) && LoneOrphan(After(w, steps), id) && other !in After(w, steps).hist
    ensures IsRun(w, more) && |more| == |steps| + 4 && more[|steps| + 3] == ShareFails(other, false, true)
    ensures var net := After(w, steps).hist[id].net;
      net in After(w, more).cloud.shares && !RecordedBy(After(w, more).cloud, net, {})
    ensures !AlwaysRecorded(w, more)
  {
    hide IsRun, After, AlwaysRecorded;
    var z := After(w, steps);
    var net := z.hist[id].net;
    Extend(w, steps, Begin(other, net));
    var s1 := steps + [Begin(other, net)];
    Extend(w, s1, List(p));
    var s2 := s1 + [List(p)];
    var z2 := After(w, s2);
    assert other in z2.cloud.markers && z2.cloud.markers[other].net == net && Young(z2.cloud, z2.cloud.markers[other]);
    assert MarkedSibling(z2.cloud, net, id);
    Extend(w, s2, Finalize(p, id, NoFault));
    var s3 := s2 + [Finalize(p, id, NoFault)];
    Extend(w, s3, ShareFails(other, false, true));
    more := s3 + [ShareFails(other, false, true)];
    if AlwaysRecorded(w, more) {
      EndRecorded(w, more);
      assert false;
    }
  }

  /** Such an orphan is four steps away from an empty cluster: a create that crashed. */
  lemma LoneOrphanArises(now: int, id: Id, net: Net) returns (w: World, steps: seq<Step>)
    requires net != ""
    ensures Initial(w) && IsRun(w, steps) && LoneOrphan(After(w, steps), id) && After(w, steps).hist.Keys == {id}
  {
    hide IsRun, After;
    w := Empty(now);
    NoSteps(w);
    steps := Do(w, [], w, Begin(id, net));
    steps := Do(w, steps, After(w, steps), Share(id));
    steps := Do(w, steps, After(w, steps), Crash(id));
    steps := Do(w, steps, After(w, steps), Tick(GRACE));
  }

  lemma LiveIsShared(w: World, id: Id)
    requires Inv(w) && id in w.cloud.apps && id !in w.abandoned
    ensures id in w.shared && id in w.hist && w.hist[id].net in w.cloud.shares
  {
    assert NeedsShare(w, id);
  }

  lemma NothingRecords(c: Cloud, net: Net)
    requires net in c.shares && c.markers == map[]
    ensures !Recorded(c)
  {
  }

  /** The undisturbed creation of a database, in steps. */
  function Creation(id: Id, net: Net): seq<Step> {
    [Begin(id, net), Share(id), Apply(id)]
  }

  lemma Creates(w: World, steps: seq<Step>, id: Id, net: Net) returns (more: seq<Step>)
    requires IsRun(w, steps) && id !in After(w, steps).hist && net != ""
    ensures more == steps + Creation(id, net) && IsRun(w, more)
    ensures var y, z := After(w, steps), After(w, more);
      && z.hist == y.hist[id := Marker(net, y.cloud.now)] && z.passes == y.passes && z.abandoned == y.abandoned
      && z.cloud == y.cloud.(markers := y.cloud.markers[id := Marker(net, y.cloud.now)], shares := y.cloud.shares + {net},
                             apps := y.cloud.apps[id := App(net, false)])
  {
    hide IsRun, After;
    more := Do(w, steps, After(w, steps), Begin(id, net));
    more := Do(w, more, After(w, more), Share(id));
    more := Do(w, more, After(w, more), Apply(id));
    assert more == steps + Creation(id, net);
  }

  /** An aged orphan and a live database, and nothing else. */
  predicate OrphanAndLive(z: World, a: Id, b: Id) {
    && a != b && z.hist.Keys == {a, b} && z.cloud.markers == z.hist && z.cloud.apps.Keys == {b} && !z.cloud.apps[b].terminating
    && z.cloud.lbs == {} && z.abandoned == {} && !Fresh(z, a) && !Fresh(z, b)
  }

  lemma BothArise(w: World, a: Id, b: Id, net: Net, other: Net) returns (steps: seq<Step>)
    requires Initial(w) && a != b && net != "" && other != ""
    ensures steps == Creation(a, net) + Creation(b, other) && IsRun(w, steps)
    ensures var y, now := After(w, steps), w.cloud.now;
      && y.hist == map[a := Marker(net, now), b := Marker(other, now)] && y.cloud.markers == y.hist
      && y.cloud.apps == map[a := App(net, false), b := App(other, false)]
      && y.cloud.now == now && y.cloud.lbs == w.cloud.lbs && y.abandoned == {}
  {
    hide IsRun, After;
    NoSteps(w);
    steps := Creates(w, [], a, net);
    steps := Creates(w, steps, b, other);
    assert steps == Creation(a, net) + Creation(b, other);
  }

  /** Two databases are created; one is deleted, and both age. */
  lemma OrphanArises(w: World, a: Id, b: Id, net: Net, other: Net) returns (steps: seq<Step>)
    requires Initial(w) && w.cloud.lbs == {} && a != b && net != "" && other != ""
    ensures steps == Creation(a, net) + Creation(b, other) + [Delete(a), CascadeDone(a), Tick(GRACE)]
    ensures IsRun(w, steps) && OrphanAndLive(After(w, steps), a, b) && After(w, steps).hist[b].net == other
  {
    hide IsRun, After, Initial;
    steps := BothArise(w, a, b, net, other);
    steps := Goes(w, steps, a);
    steps := Do(w, steps, After(w, steps), Tick(GRACE));
  }

  /** A database is deleted and its cascade finishes. */
  lemma Goes(w: World, steps: seq<Step>, id: Id) returns (more: seq<Step>)
    requires IsRun(w, steps) && id in After(w, steps).cloud.apps
    ensures more == steps + [Delete(id), CascadeDone(id)] && IsRun(w, more)
    ensures var y := After(w, steps); After(w, more) == y.(cloud := y.cloud.(apps := y.cloud.apps - {id}))
  {
    hide IsRun, After;
    var y := After(w, steps);
    more := Do(w, steps, y, Delete(id));
    more := Do(w, more, After(w, more), CascadeDone(id));
    assert more == steps + [Delete(id), CascadeDone(id)];
    assert y.cloud.apps[id := y.cloud.apps[id].(terminating := true)] - {id} == y.cloud.apps - {id};
  }

  /** A pass that finds the live database alive and reaps the orphan. */
  lemma PassReaps(w: World, steps: seq<Step>, a: Id, b: Id) returns (more: seq<Step>)
    requires IsRun(w, steps) && OrphanAndLive(After(w, steps), a, b)
    ensures more == steps + [List(0), Finalize(0, b, NoFault), Finalize(0, a, NoFault)] && IsRun(w, more)
    ensures var y, z := After(w, steps), After(w, more);
      && z.hist == y.hist && z.cloud.apps == y.cloud.apps && z.abandoned == {}
      && 0 in z.passes && z.passes[0] == Pass({a, b}, {a, b}, {}, {b}, 0, 1)
  {
    hide IsRun, After, InUse;
    more := Do(w, steps, After(w, steps), List(0));
    more := Do(w, more, After(w, more), Finalize(0, b, NoFault));
    more := Do(w, more, After(w, more), Finalize(0, a, NoFault));
    assert more == steps + [List(0), Finalize(0, b, NoFault), Finalize(0, a, NoFault)];
  }

  /** A collected namespace can lose the record of a database that was alive when its pass visited
      it.  From an empty cluster: two databases are created, one is deleted and ages, a pass reaps
      it after finding the other alive, and the other is deleted, cascade and all, before the pass
      looks at the Applications. */
  lemma GcLosesShareFromEmpty(now: int, a: Id, b: Id, net: Net, other: Net) returns (w: World, steps: seq<Step>)
    requires a != b && net != "" && other != ""
    ensures Initial(w) && IsRun(w, steps) && !AlwaysRecorded(w, steps)
    ensures steps == Creation(a, net) + Creation(b, other) + [Delete(a), CascadeDone(a), Tick(GRACE)]
      + [List(0), Finalize(0, b, NoFault), Finalize(0, a, NoFault)] + [Delete(b), CascadeDone(b), Gc(0, true, false)]
  {
    hide IsRun, After, AlwaysRecorded, Inv, Recorded;
    w := Empty(now);
    steps := OrphanArises(w, a, b, net, other);
    steps := PassReaps(w, steps, a, b);
    InitialInv(w);
    RunKeeps(w, steps);
    LiveIsShared(After(w, steps), b);
    var before := steps;
    steps := Do(w, steps, After(w, steps), Delete(b));
    steps := Do(w, steps, After(w, steps), CascadeDone(b));
    steps := Do(w, steps, After(w, steps), Gc(0, true, false));
    assert steps == before + [Delete(b), CascadeDone(b), Gc(0, true, false)];
    NothingRecords(After(w, steps).cloud, other);
    if AlwaysRecorded(w, steps) {
      EndRecorded(w, steps);
      assert false;
    }
  }

  lemma InitialInv(w: World)
    requires Initial(w)
    ensures Inv(w)
  {
  }

  // ----- creates that reported an error -----

  /** Every database that needs its share has it, and so has every Application, also one whose
      create reported an error. */
  ghost predicate AllShared(w: World) {
    forall id :: id in w.hist && (NeedsShare(w, id) || id in w.cloud.apps) ==> w.hist[id].net in w.cloud.shares
  }

  /** The one step that can cut an Application off: the caller of a create that reported an error
      revokes a share that create made, sees no other database on the network, and does not look
      at the Application that was written all the same. */
  predicate Spares(w: World, s: Step)
    requires Enabled(w, s)
  {
    s.Unwind? ==> s.id !in w.cloud.apps || s.id !in w.made || InUse(w.cloud, w.hist[s.id].net, s.id)
  }

  /** A sibling's Application is always seen by `networkInUse`. */
  lemma ApplicationIsSeen(w: World, id: Id, exclude: Id)
    requires Marked(w) && Tracked(w) && Records(w) && id in w.cloud.apps && id != exclude
    ensures id in w.hist && InUse(w.cloud, w.hist[id].net, exclude)
  {
    assert id in w.cloud.markers && w.cloud.markers[id] == w.hist[id];
  }

  lemma UnwindShared(w: World, id: Id)
    requires Inv(w) && AllShared(w) && Enabled(w, Unwind(id))
    ensures AllShared(Next(w, Unwind(id))) <==> Spares(w, Unwind(id))
  {
    var w' := Next(w, Unwind(id));
    assert Protected(w') by { UnwindKeeps(w, id); }
    hide InUse, PassesOk;
    forall d | d in w.cloud.apps && d != id ensures d in w.hist && InUse(w.cloud, w.hist[d].net, id) { ApplicationIsSeen(w, d, id); }
  }

  lemma FinalizeShared(w: World, p: nat, id: Id, fault: Fault)
    requires Inv(w) && AllShared(w) && Enabled(w, Finalize(p, id, fault))
    ensures AllShared(Next(w, Finalize(p, id, fault)))
  {
    var w' := Next(w, Finalize(p, id, fault));
    assert Protected(w') by { FinalizeProtects(w, p, id, fault); }
    hide Visit, InUse, PassesOk;
    VisitEffect(w.cloud, id, w.hist[id], fault);
    forall d | d in w.cloud.apps && d != id ensures d in w.hist && InUse(w.cloud, w.hist[d].net, id) { ApplicationIsSeen(w, d, id); }
  }

  /** An Application lands while its network is sure to be shared; no other step unshares. */
  lemma OtherShared(w: World, s: Step)
    requires Inv(w) && AllShared(w) && Enabled(w, s) && !s.Unwind? && !s.Finalize?
    ensures AllShared(Next(w, s))
  {
    var w' := Next(w, s);
    assert Protected(w') by { StepKeeps(w, s); }
    forall d | d in w'.cloud.apps ensures d in w.hist && w'.hist[d] == w.hist[d] && w.hist[d].net in w'.cloud.shares {
      if d !in w.cloud.apps {
        assert (s.Apply? || s.Fails?) && d == s.id;
        assert NeedsShare(w, d);
      }
    }
  }

  lemma StepShared(w: World, s: Step)
    requires Inv(w) && AllShared(w) && Enabled(w, s)
    ensures AllShared(Next(w, s)) <==> Spares(w, s)
  {
    hide Inv, AllShared, Next;
    match s
    case Unwind(id) => UnwindShared(w, id);
    case Finalize(p, id, fault) => FinalizeShared(w, p, id, fault);
    case _ => OtherShared(w, s);
  }

  ghost predicate AlwaysShared(w: World, steps: seq<Step>)
    requires IsRun(w, steps)
    decreases |steps|
  {
    AllShared(w) && (steps == [] || AlwaysShared(Next(w, steps[0]), steps[1..]))
  }

  predicate AllSpared(w: World, steps: seq<Step>)
    requires IsRun(w, steps)
    decreases |steps|
  {
    steps == [] || (Spares(w, steps[0]) && AllSpared(Next(w, steps[0]), steps[1..]))
  }

  lemma {:induction false} RunShared(w: World, steps: seq<Step>)
    requires Inv(w) && AllShared(w) && IsRun(w, steps)
    ensures AlwaysShared(w, steps) <==> AllSpared(w, steps)
    decreases |steps|
  {
    hide Inv, Next, Enabled, AllShared, Spares;
    if steps != [] {
      StepKeeps(w, steps[0]);
      StepShared(w, steps[0]);
      if Spares(w, steps[0]) {
        RunShared(Next(w, steps[0]), steps[1..]);
      } else if steps[1..] != [] {
        assert !AlwaysShared(Next(w, steps[0]), steps[1..]);
      }
    }
  }

  /** MAIN RESULT.  In every state of a run every Application has its network shared, whether its
      create reported an error or not, and so has every database in its grace window whose create
      did not, if and only if no unwind of the run is one that cuts an Application off. */
  lemma ApplicationsStayShared(w: World, steps: seq<Step>)
    requires Initial(w) && IsRun(w, steps)
    ensures AlwaysShared(w, steps) <==> AllSpared(w, steps)
  {
    InitialInv(w);
    RunShared(w, steps);
  }

  lemma {:induction false} EndShared(w: World, steps: seq<Step>)
    requires IsRun(w, steps) && AlwaysShared(w, steps)
    ensures AllShared(After(w, steps))
    decreases |steps|
  {
    hide Next, Enabled, AllShared;
    if steps != [] {
      EndShared(Next(w, steps[0]), steps[1..]);
    }
  }

  /** Such a run from an empty cluster: the answer to the last write of a create is lost, and the
      caller unwinds the share under an Application that is there. */
  lemma UnwindCutsOff(now: int, id: Id, net: Net) returns (w: World, steps: seq<Step>)
    requires net != ""
    ensures steps == [Begin(id, net), Share(id), Fails(id, false, false, true), Unwind(id)]
    ensures Initial(w) && IsRun(w, steps) && !AlwaysShared(w, steps)
    ensures var z := After(w, steps); id in z.cloud.apps && z.cloud.apps[id].net !in z.cloud.shares
  {
    hide IsRun, After, AlwaysShared;
    w := Empty(now);
    NoSteps(w);
    steps := Do(w, [], w, Begin(id, net));
    steps := Do(w, steps, After(w, steps), Share(id));
    steps := Do(w, steps, After(w, steps), Fails(id, false, false, true));
    assert !InUse(After(w, steps).cloud, net, id);
    steps := Do(w, steps, After(w, steps), Unwind(id));
    assert id in After(w, steps).hist;
    if AlwaysShared(w, steps) {
      EndShared(w, steps);
      assert false;
    }
  }
}
