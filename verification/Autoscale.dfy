/** The vertical autoscaler: recommendations clamped to the customer's ceilings, scale-up only. */
module Autoscale {
  import opened Base

  datatype Sizes = Sizes(cpu: int, mem: int, disk: int)

  datatype Limits = Limits(cpu: int, mem: int, disk: int)

  /** Targets in whole units (0 for none) and whether a volume has passed the fill threshold. */
  datatype Advice = Advice(cpu: nat, mem: nat, diskFull: bool)

  function Min(a: int, b: int): int {
    if a < b then a else b
  }

  /** `ceil(n * 6/5)`. */
  function Grown(n: int): int {
    (6 * n + 4) / 5
  }

  /** CPU and memory: raised towards the target when it is above the current size and a ceiling
      is set, but always written as the smaller of target and ceiling. */
  function Raised(cur: int, target: int, max: int): int {
    if target > cur && max > 0 then Min(target, max) else cur
  }

  function DiskStep(cur: int, full: bool, max: int): int {
    if full && max > 0 && cur > 0 && Min(Grown(cur), max) > cur then Min(Grown(cur), max) else cur
  }

  function Proposed(s: Sizes, l: Limits, a: Advice): Sizes {
    Sizes(Raised(s.cpu, a.cpu, l.cpu), Raised(s.mem, a.mem, l.mem), DiskStep(s.disk, a.diskFull, l.disk))
  }

  /** Some dimension grows; otherwise the patch is abandoned. */
  predicate Changed(s: Sizes, l: Limits, a: Advice) {
    var p := Proposed(s, l, a);
    p.cpu > s.cpu || p.mem > s.mem || p.disk > s.disk
  }

  function Tick(s: Sizes, l: Limits, a: Advice): Sizes {
    if Changed(s, l, a) then Proposed(s, l, a) else s
  }

  predicate AtLeast(s: Sizes, t: Sizes) {
    s.cpu >= t.cpu && s.mem >= t.mem && s.disk >= t.disk
  }

  /** Each size at or below its own ceiling. */
  predicate Within(s: Sizes, l: Limits) {
    s.cpu <= l.cpu && s.mem <= l.mem && s.disk <= l.disk
  }

  /** A positive volume below its ceiling strictly grows whenever it is full, and by at least a
      fifth unless the ceiling cuts in. */
  lemma DiskGrows(cur: int, max: int)
    requires cur > 0 && max > 0
    ensures DiskStep(cur, true, max) > cur <==> cur < max
    ensures cur < max ==> DiskStep(cur, true, max) == max || 5 * DiskStep(cur, true, max) >= 6 * cur
    ensures DiskStep(cur, true, max) <= if cur < max then max else cur
  {
  }

  /** A tick lowers a size exactly when that size is above its ceiling, the target is above it
      too, and another dimension changes in the same tick. */
  predicate Lowers(s: Sizes, l: Limits, a: Advice) {
    Changed(s, l, a) && ((a.cpu > s.cpu > l.cpu > 0) || (a.mem > s.mem > l.mem > 0))
  }

  lemma TickLowersExactly(s: Sizes, l: Limits, a: Advice)
    ensures AtLeast(Tick(s, l, a), s) <==> !Lowers(s, l, a)
  {
  }

  /** Such a tick exists: a size above its ceiling is pulled down when the volume grows. */
  lemma TickCanLower()
    ensures var s, l, a := Sizes(8, 4, 10), Limits(4, 16, 100), Advice(9, 0, true);
      Tick(s, l, a).cpu == 4 < s.cpu
  {
  }

  /** Where a tick takes each size: below a positive ceiling and a higher target, to the smaller of
      the two; a full volume below its ceiling, to the least size a fifth larger, or the ceiling;
      and nowhere without a higher target, a fill or a ceiling above. */
  lemma TickReaches(s: Sizes, l: Limits, a: Advice)
    ensures a.cpu > s.cpu && 0 < l.cpu && s.cpu < l.cpu ==> Tick(s, l, a).cpu == if a.cpu < l.cpu then a.cpu else l.cpu
    ensures a.mem > s.mem && 0 < l.mem && s.mem < l.mem ==> Tick(s, l, a).mem == if a.mem < l.mem then a.mem else l.mem
    ensures a.cpu <= s.cpu || l.cpu <= 0 ==> Tick(s, l, a).cpu == s.cpu
    ensures a.mem <= s.mem || l.mem <= 0 ==> Tick(s, l, a).mem == s.mem
    ensures a.diskFull && 0 < s.disk < l.disk ==>
      var d := Tick(s, l, a).disk; d == l.disk <= (6 * s.disk + 4) / 5 || (d < l.disk && 5 * (d - 1) < 6 * s.disk <= 5 * d)
    ensures !a.diskFull || s.disk <= 0 || s.disk >= l.disk ==> Tick(s, l, a).disk == s.disk
  {
  }

  // ----- runs -----

  function Run(s: Sizes, l: Limits, advice: seq<Advice>): Sizes
    decreases |advice|
  {
    if advice == [] then s else Run(Tick(s, l, advice[0]), l, advice[1..])
  }

  /** How many ticks of the run write. */
  function Writes(s: Sizes, l: Limits, advice: seq<Advice>): nat
    decreases |advice|
  {
    if advice == [] then 0
    else (if Changed(s, l, advice[0]) then 1 else 0) + Writes(Tick(s, l, advice[0]), l, advice[1..])
  }

  function Headroom(s: Sizes, l: Limits): int {
    (l.cpu - s.cpu) + (l.mem - s.mem) + (l.disk - s.disk)
  }

  lemma TickKeeps(s: Sizes, l: Limits, a: Advice)
    requires Within(s, l)
    ensures Within(Tick(s, l, a), l) && AtLeast(Tick(s, l, a), s)
    ensures Changed(s, l, a) ==> Headroom(Tick(s, l, a), l) < Headroom(s, l)
  {
  }

  /** MAIN RESULT.  From sizes within their ceilings, every run of ticks keeps them there, never
      lowers any, and writes at most as often as there is headroom to use up. */
  lemma {:induction false} RunIsBounded(s: Sizes, l: Limits, advice: seq<Advice>)
    requires Within(s, l)
    ensures Within(Run(s, l, advice), l) && AtLeast(Run(s, l, advice), s)
    ensures Writes(s, l, advice) <= Headroom(s, l) - Headroom(Run(s, l, advice), l)
    ensures Headroom(Run(s, l, advice), l) >= 0
    decreases |advice|
  {
    hide Tick, Changed;
    if advice != [] {
      TickKeeps(s, l, advice[0]);
      RunIsBounded(Tick(s, l, advice[0]), l, advice[1..]);
    }
  }

  // ----- databases and volumes -----

  datatype Database = Database(id: string, deleting: bool, enabled: bool, resizable: bool, growable: bool, sizes: Sizes, limits: Limits)

  predicate At(s: string, part: string, i: int) {
    0 <= i <= |s| - |part| && s[i..i + |part|] == part
  }

  predicate Contains(s: string, part: string) {
    exists i {:trigger At(s, part, i)} :: 0 <= i <= |s| && At(s, part, i)
  }

  lemma ContainsExactly(s: string, part: string)
    ensures Contains(s, part) <==> exists a: string, b: string :: s == a + part + b
  {
    if Contains(s, part) {
      var i :| 0 <= i <= |s| && At(s, part, i);
      assert s == s[..i] + part + s[i + |part|..];
    }
    if a: string, b: string :| s == a + part + b {
      assert s[|a|..|a| + |part|] == part;
      assert At(s, part, |a|);
    }
  }

  const THRESHOLD: real := 0.8

  /** The fullest of the volumes that carry the database's id. */
  method WorstFill(ratios: map<string, real>, id: string) returns (worst: real)
    ensures worst >= 0.0
    ensures worst >= THRESHOLD <==> exists pvc :: pvc in ratios && Contains(pvc, id) && ratios[pvc] >= THRESHOLD
  {
    worst := 0.0;
    var rest := ratios.Keys;
    while rest != {}
      invariant rest <= ratios.Keys && worst >= 0.0
      invariant forall pvc :: pvc in ratios && pvc !in rest && Contains(pvc, id) ==> ratios[pvc] <= worst
      invariant worst == 0.0 || exists pvc :: pvc in ratios && Contains(pvc, id) && ratios[pvc] == worst
      decreases |rest|
    {
      var pvc :| pvc in rest;
      rest := rest - {pvc};
      if Contains(pvc, id) && ratios[pvc] > worst { worst := ratios[pvc]; }
    }
  }

  function Ceil(x: real): int {
    if x.Floor as real == x then x.Floor else x.Floor + 1
  }

  // ----- quantities -----

  /** How `strconv.ParseFloat` reads a number; None is a syntax error. */
  type Parse = string -> Option<real>

  /** The least whole number of units that covers `n * mult`, if the text is a number. */
  function Units(text: string, mult: real, parse: Parse): (r: Option<int>)
    ensures r.Some? <==> parse(text).Some?
    ensures r.Some? ==> (r.value - 1) as real < parse(text).value * mult <= r.value as real
  {
    match parse(text) case None => None case Some(n) => Some(Ceil(n * mult))
  }

  /** `parseCPUQty`: whole cores, millicores rounded up. */
  function Cores(q: string, parse: Parse): Option<int> {
    if q == "" then None
    else if HasSuffix(q, "m") then Units(q[..|q| - 1], 1.0 / 1000.0, parse)
    else Units(q, 1.0, parse)
  }

  /** A number of cores, or of thousandths with the suffix `m`, in whole cores and rounded up. */
  lemma CoresMean(t: string, n: real, k: int, parse: Parse)
    requires parse(t) == Some(n)
    ensures Cores(t + "m", parse) == Some(k) <==> (k - 1) as real * 1000.0 < n <= k as real * 1000.0
    ensures t != "" && t[|t| - 1] != 'm' ==> (Cores(t, parse) == Some(k) <==> (k - 1) as real < n <= k as real)
  {
    hide Units;
    assert HasSuffix(t + "m", "m") && (t + "m")[..|t|] == t;
    if t != "" && HasSuffix(t, "m") { assert t[|t| - 1..][0] == 'm'; }
    UnitsExactly(t, 1.0 / 1000.0, k, parse);
    UnitsExactly(t, 1.0, k, parse);
  }

  lemma UnitsExactly(text: string, mult: real, k: int, parse: Parse)
    ensures Units(text, mult, parse) == Some(k) <==> parse(text).Some? && (k - 1) as real < parse(text).value * mult <= k as real
  {
  }

  const GI: real := 1073741824.0

  const UNITS: map<string, real> := map[
    "Ki" := 1024.0, "Mi" := 1048576.0, "Gi" := GI, "Ti" := 1099511627776.0,
    "k" := 1000.0, "M" := 1000000.0, "G" := 1000000000.0, "T" := 1000000000000.0
  ]

  function Cut(q: string, suffix: string): string
    requires HasSuffix(q, suffix)
  {
    q[..|q| - |suffix|]
  }

  /** A quantity carries at most one of the suffixes, so the order of the map does not matter. */
  lemma OneSuffix(q: string, a: string, b: string)
    requires a in UNITS && b in UNITS && HasSuffix(q, a) && HasSuffix(q, b)
    ensures a == b
  {
    assert a[|a| - 1] == q[|q| - 1] == b[|b| - 1];
    if |a| == 2 && |b| == 2 { assert a[0] == q[|q| - 2] == b[0]; }
  }

  /** Memory in whole Gi: the text before the suffix, times the suffix, rounded up. */
  ghost predicate IsMemory(q: string, parse: Parse, r: Option<int>) {
    && (q == "" ==> r == None)
    && (forall suffix :: suffix in UNITS && HasSuffix(q, suffix) ==> r == Units(Cut(q, suffix), UNITS[suffix] / GI, parse))
    && (q != "" && (forall suffix :: suffix in UNITS ==> !HasSuffix(q, suffix)) ==> r == Units(q, 1.0 / GI, parse))
  }

  lemma SuffixDecides(q: string, suffix: string, parse: Parse)
    requires suffix in UNITS && HasSuffix(q, suffix)
    ensures IsMemory(q, parse, Units(Cut(q, suffix), UNITS[suffix] / GI, parse))
  {
    hide Units;
    assert |suffix| > 0;
    forall other | other in UNITS && HasSuffix(q, other) ensures other == suffix { OneSuffix(q, other, suffix); }
  }

  lemma EmptyIsNone(parse: Parse)
    ensures IsMemory("", parse, None)
  {
    hide Units;
    assert forall suffix :: suffix in UNITS ==> |suffix| > 0;
  }

  lemma SuffixMeans(t: string, suffix: string, n: real, k: int, parse: Parse)
    requires parse(t) == Some(n) && suffix in UNITS
    ensures IsMemory(t + suffix, parse, Some(k)) <==> (k - 1) as real * 1073741824.0 < n * UNITS[suffix] <= k as real * 1073741824.0
  {
    hide Units, IsMemory;
    var q := t + suffix;
    assert HasSuffix(q, suffix) && Cut(q, suffix) == t;
    SuffixDecides(q, suffix, parse);
    UnitsExactly(t, UNITS[suffix] / GI, k, parse);
    if IsMemory(q, parse, Some(k)) { OneMemory(q, parse, Some(k), Units(t, UNITS[suffix] / GI, parse)); }
  }

  /** What the suffixes stand for: powers of 1024 and of 1000, in whole Gi and rounded up. */
  lemma SuffixesMean(t: string, n: real, k: int, parse: Parse)
    requires parse(t) == Some(n)
    ensures IsMemory(t + "Ki", parse, Some(k)) <==> (k - 1) as real * 1073741824.0 < n * 1024.0 <= k as real * 1073741824.0
    ensures IsMemory(t + "Mi", parse, Some(k)) <==> (k - 1) as real * 1073741824.0 < n * 1048576.0 <= k as real * 1073741824.0
    ensures IsMemory(t + "Gi", parse, Some(k)) <==> (k - 1) as real < n <= k as real
    ensures IsMemory(t + "Ti", parse, Some(k)) <==> (k - 1) as real < n * 1024.0 <= k as real
    ensures IsMemory(t + "k", parse, Some(k)) <==> (k - 1) as real * 1073741824.0 < n * 1000.0 <= k as real * 1073741824.0
    ensures IsMemory(t + "M", parse, Some(k)) <==> (k - 1) as real * 1073741824.0 < n * 1000000.0 <= k as real * 1073741824.0
    ensures IsMemory(t + "G", parse, Some(k)) <==> (k - 1) as real * 1073741824.0 < n * 1000000000.0 <= k as real * 1073741824.0
    ensures IsMemory(t + "T", parse, Some(k)) <==> (k - 1) as real * 1073741824.0 < n * 1000000000000.0 <= k as real * 1073741824.0
  {
    hide IsMemory;
    SuffixMeans(t, "Ki", n, k, parse);
    SuffixMeans(t, "Mi", n, k, parse);
    SuffixMeans(t, "Gi", n, k, parse);
    SuffixMeans(t, "Ti", n, k, parse);
    SuffixMeans(t, "k", n, k, parse);
    SuffixMeans(t, "M", n, k, parse);
    SuffixMeans(t, "G", n, k, parse);
    SuffixMeans(t, "T", n, k, parse);
  }

  predicate Bare(q: string) {
    forall suffix :: suffix in UNITS ==> !HasSuffix(q, suffix)
  }

  /** `parseMemGiQty`, which tries the suffixes in the map's order. */
  method MemoryGi(q: string, parse: Parse) returns (r: Option<int>)
    ensures IsMemory(q, parse, r)
  {
    if q == "" {
      EmptyIsNone(parse);
      return None;
    }
    hide IsMemory, Units, HasSuffix;
    var units := UNITS;
    var rest := units.Keys;
    while rest != {}
      invariant rest <= units.Keys && forall suffix :: suffix in units && suffix !in rest ==> !HasSuffix(q, suffix)
      decreases |rest|
    {
      var suffix :| suffix in rest;
      rest := rest - {suffix};
      if HasSuffix(q, suffix) {
        SuffixDecides(q, suffix, parse);
        return Units(Cut(q, suffix), units[suffix] / GI, parse);
      }
    }
    r := Units(q, 1.0 / GI, parse);
    BareDecides(q, parse);
  }

  lemma BareDecides(q: string, parse: Parse)
    requires q != "" && Bare(q)
    ensures IsMemory(q, parse, Units(q, 1.0 / GI, parse))
  {
    hide Units;
  }

  /** One container's recommendation, as the two quantities it is written as. */
  datatype Target = Target(cpu: string, mem: string)

  /** `vpaTarget`: the largest readable recommendation over the containers, zero without one. */
  method VpaTarget(targets: seq<Target>, parse: Parse) returns (cpu: nat, mem: nat)
    ensures forall i :: 0 <= i < |targets| && Cores(targets[i].cpu, parse).Some? ==> Cores(targets[i].cpu, parse).value <= cpu
    ensures cpu == 0 || exists i :: 0 <= i < |targets| && Cores(targets[i].cpu, parse) == Some(cpu)
    ensures forall i, r :: 0 <= i < |targets| && IsMemory(targets[i].mem, parse, r) && r.Some? ==> r.value <= mem
    ensures mem == 0 || exists i :: 0 <= i < |targets| && IsMemory(targets[i].mem, parse, Some(mem))
  {
    hide IsMemory, Cores, Units;
    cpu, mem := 0, 0;
    for i := 0 to |targets|
      invariant forall k :: 0 <= k < i && Cores(targets[k].cpu, parse).Some? ==> Cores(targets[k].cpu, parse).value <= cpu
      invariant cpu == 0 || exists k :: 0 <= k < i && Cores(targets[k].cpu, parse) == Some(cpu)
      invariant forall k, r :: 0 <= k < i && IsMemory(targets[k].mem, parse, r) && r.Some? ==> r.value <= mem
      invariant mem == 0 || exists k :: 0 <= k < i && IsMemory(targets[k].mem, parse, Some(mem))
    {
      var c := Cores(targets[i].cpu, parse);
      if c.Some? && c.value > cpu { cpu := c.value; }
      var m := MemoryGi(targets[i].mem, parse);
      forall r | IsMemory(targets[i].mem, parse, r) ensures r == m { OneMemory(targets[i].mem, parse, r, m); }
      if m.Some? && m.value > mem { mem := m.value; }
    }
  }

  lemma OneMemory(q: string, parse: Parse, a: Option<int>, b: Option<int>)
    requires IsMemory(q, parse, a) && IsMemory(q, parse, b)
    ensures a == b
  {
  }

  // ----- one tick over a project -----

  predicate Fuller(ratios: Option<map<string, real>>, id: string) {
    ratios.Some? && exists pvc :: pvc in ratios.value && Contains(pvc, id) && ratios.value[pvc] >= THRESHOLD
  }

  /** What the database may be told, going by its listing: nothing about a size its engine cannot
      change, nor about a volume without a ceiling or whose use could not be read. */
  function AdviceFor(d: Database, cpu: nat, mem: nat, full: bool): Advice {
    Advice(if d.resizable then cpu else 0, if d.resizable then mem else 0, d.growable && d.limits.disk > 0 && full)
  }

  /** A patch is tried for a listed database that is enabled and has something to be told. */
  predicate Tried(listed: Database, a: Advice) {
    !listed.deleting && listed.enabled && a != Advice(0, 0, false)
  }

  /** What becomes of a database as it lives now, given how it was listed: the clamp reads the live
      sizes and ceilings, and a patch that fails leaves them. */
  function After(listed: Database, live: Database, cpu: nat, mem: nat, ratios: Option<map<string, real>>, fails: bool): Database {
    var a := AdviceFor(listed, cpu, mem, Fuller(ratios, listed.id));
    if Tried(listed, a) && !fails then live.(sizes := Tick(live.sizes, live.limits, a)) else live
  }

  method TickOne(listed: Database, live: Database, cpu: nat, mem: nat, ratios: Option<map<string, real>>, fails: bool) returns (r: Database, changed: bool)
    ensures r == After(listed, live, cpu, mem, ratios, fails)
    ensures changed <==> r != live
  {
    hide Contains, Raised, DiskStep;
    if listed.deleting || !listed.enabled { return live, false; }
    var newCPU, newMem := 0, 0;
    if listed.resizable { newCPU, newMem := cpu, mem; }
    var full := false;
    if listed.growable && listed.limits.disk > 0 && ratios.Some? {
      var worst := WorstFill(ratios.value, listed.id);
      full := worst >= THRESHOLD;
      WorstIsFuller(ratios.value, listed.id, worst);
    }
    if newCPU == 0 && newMem == 0 && !full { return live, false; }
    var a := Advice(newCPU, newMem, full);
    if fails || !Changed(live.sizes, live.limits, a) { return live, false; }
    return live.(sizes := Proposed(live.sizes, live.limits, a)), true;
  }

  lemma WorstIsFuller(ratios: map<string, real>, id: string, worst: real)
    requires worst >= THRESHOLD <==> exists pvc :: pvc in ratios && Contains(pvc, id) && ratios[pvc] >= THRESHOLD
    ensures Fuller(Some(ratios), id) <==> worst >= THRESHOLD
  {
  }

  /** What the tick is told about one database: its recommendation, the use of its project's
      volumes unless that could not be read, and whether its patch fails. */
  datatype Input = Input(cpu: nat, mem: nat, ratios: Option<map<string, real>>, fails: bool)

  /** `AutoscaleTick`: one bounded step for every enabled database, and the number bumped. */
  method AutoscaleTick(listed: seq<Database>, live: array<Database>, inputs: seq<Input>) returns (bumped: nat)
    requires |listed| == |inputs| == live.Length
    modifies live
    ensures forall i :: 0 <= i < live.Length ==>
      live[i] == After(listed[i], old(live[i]), inputs[i].cpu, inputs[i].mem, inputs[i].ratios, inputs[i].fails)
    ensures bumped == |set i | 0 <= i < live.Length && live[i] != old(live[i])|
  {
    hide After;
    bumped := 0;
    ghost var hit: set<int> := {};
    for i := 0 to live.Length
      invariant forall k :: i <= k < live.Length ==> live[k] == old(live[k])
      invariant forall k :: 0 <= k < i ==>
        live[k] == After(listed[k], old(live[k]), inputs[k].cpu, inputs[k].mem, inputs[k].ratios, inputs[k].fails)
      invariant hit == (set k | 0 <= k < i && live[k] != old(live[k])) && bumped == |hit|
    {
      var r, changed := TickOne(listed[i], live[i], inputs[i].cpu, inputs[i].mem, inputs[i].ratios, inputs[i].fails);
      if changed {
        live[i] := r;
        bumped := bumped + 1;
        hit := hit + {i};
      }
    }
    assert hit == set i | 0 <= i < live.Length && live[i] != old(live[i]);
  }

  /** Whatever the listing says, a tick keeps a database within its live ceilings, lowers nothing,
      and touches nothing but its sizes; it leaves alone what was listed as deleted or disabled. */
  lemma AfterKeeps(listed: Database, live: Database, cpu: nat, mem: nat, ratios: Option<map<string, real>>, fails: bool)
    requires Within(live.sizes, live.limits)
    ensures var r := After(listed, live, cpu, mem, ratios, fails);
      && Within(r.sizes, r.limits) && AtLeast(r.sizes, live.sizes) && r == live.(sizes := r.sizes)
      && (!listed.enabled || listed.deleting || fails ==> r == live)
  {
    TickKeeps(live.sizes, live.limits, AdviceFor(listed, cpu, mem, Fuller(ratios, listed.id)));
  }

  /** What a tick does to one database, from the inputs: an enabled one whose engine can be resized
      gets the smaller of recommendation and ceiling, and one whose engine can grow gets a larger
      volume when some volume that carries its id is four fifths full. */
  lemma AfterReaches(listed: Database, live: Database, cpu: nat, mem: nat, ratios: Option<map<string, real>>)
    requires listed.enabled && !listed.deleting
    ensures var r, s, l := After(listed, live, cpu, mem, ratios, false).sizes, live.sizes, live.limits;
      && (listed.resizable && cpu > s.cpu >= 0 && s.cpu < l.cpu ==> r.cpu == if cpu < l.cpu then cpu else l.cpu)
      && (listed.resizable && mem > s.mem >= 0 && s.mem < l.mem ==> r.mem == if mem < l.mem then mem else l.mem)
      && (!listed.resizable && s.cpu >= 0 && s.mem >= 0 ==> r.cpu == s.cpu && r.mem == s.mem)
      && (r.disk != s.disk <==>
            listed.growable && listed.limits.disk > 0 && 0 < s.disk < l.disk && ratios.Some?
            && exists pvc :: pvc in ratios.value && Contains(pvc, listed.id) && ratios.value[pvc] >= 0.8)
  {
    var full := Fuller(ratios, listed.id);
    var a := AdviceFor(listed, cpu, mem, full);
    TickReaches(live.sizes, live.limits, a);
    DiskMoves(live.sizes, live.limits, a);
  }

  lemma DiskMoves(s: Sizes, l: Limits, a: Advice)
    ensures Tick(s, l, a).disk != s.disk <==> a.diskFull && 0 < s.disk < l.disk
  {
  }
}
