/** The cloud resource cache: locked upsert, optimistic update, archive on delete, and the
    guard that keeps a stale snapshot from recreating what a user deleted. */
module Cache {
  import opened Base

  type Id = string
  type Time = int

  /** What callers pass in and get back; `payload` stands for the remaining persisted fields. */
  datatype Resource = Resource(id: Id, service: string, external: string, createdAt: Option<Time>, updatedAt: Option<Time>, payload: string)

  datatype Row = Row(service: string, external: string, createdAt: Option<Time>, updatedAt: Option<Time>, payload: string)

  /** A history record.  Empty strings are left out of the stored document, so a filter for an
      empty string matches no record. */
  datatype Hist = Hist(resource: Id, service: string, external: string, createdAt: Option<Time>, deletedAt: Time, payload: string)

  /** The two tables, and the row ids handed out so far. */
  datatype State = State(rows: map<Id, Row>, history: seq<Hist>, used: set<Id>)

  predicate Match(row: Row, service: string, external: string) {
    row.service == service && row.external == external
  }

  predicate Cached(s: State, service: string, external: string) {
    exists id :: id in s.rows && Match(s.rows[id], service, external)
  }

  /** At most one row per (service, external id); row ids come from those handed out. */
  ghost predicate Valid(s: State) {
    && (forall a, b :: a in s.rows && b in s.rows && Match(s.rows[a], s.rows[b].service, s.rows[b].external) ==> a == b)
    && s.rows.Keys <= s.used
  }

  /** `toDbRecord` applied to a row: everything but the creation date is replaced. */
  function Patched(row: Row, r: Resource): Row {
    Row(r.service, r.external, row.createdAt, r.updatedAt, r.payload)
  }

  function FreshRow(r: Resource): Row {
    Row(r.service, r.external, r.createdAt, r.updatedAt, r.payload)
  }

  /** A stored timestamp may be replaced by an equal or later one; a missing one on either side
      blocks the write. */
  predicate NotNewer(stored: Option<Time>, incoming: Option<Time>) {
    stored.Some? && incoming.Some? && stored.value <= incoming.value
  }

  function Archived(r: Resource, now: Time): Hist {
    Hist(r.id, r.service, r.external, r.createdAt, now, r.payload)
  }

  /** `Exists({cloudResourceId: id})`. */
  predicate InHistory(h: seq<Hist>, id: Id) {
    id != "" && exists i :: 0 <= i < |h| && h[i].resource == id
  }

  // ----- operations as steps -----

  datatype Op =
    | Insert(r: Resource, id: Id)
    | Update(r: Resource)
    | Stamp(service: string, external: string, t: Time)
    | Delete(r: Resource, now: Time, fault: DeleteFault)

  /** Which of the two writes of a delete fails, if any. */
  datatype DeleteFault = DeleteOk | DeleteFails | ArchiveFails

  /** A resource without an id has no row to delete, so its delete cannot fail. */
  predicate GoesThrough(r: Resource, fault: DeleteFault) {
    fault == DeleteOk || (fault == DeleteFails && r.id == "")
  }

  predicate Archives(op: Op, id: Id) {
    op.Delete? && op.r.id == id && GoesThrough(op.r, op.fault)
  }

  /** New ids are non-empty and not handed out before. */
  predicate Enabled(s: State, op: Op) {
    op.Insert? ==> op.id != "" && op.id !in s.used
  }

  ghost function RowOf(s: State, service: string, external: string): Id
    requires Cached(s, service, external)
    ensures RowOf(s, service, external) in s.rows && Match(s.rows[RowOf(s, service, external)], service, external)
  {
    var id :| id in s.rows && Match(s.rows[id], service, external);
    id
  }

  ghost function Next(s: State, op: Op): State
    requires Enabled(s, op)
  {
    match op
    case Insert(r, id) =>
      if Cached(s, r.service, r.external) then
        var k := RowOf(s, r.service, r.external);
        s.(rows := s.rows[k := Patched(s.rows[k], r)])
      else s.(rows := s.rows[id := FreshRow(r)], used := s.used + {id})
    case Update(r) =>
      if Cached(s, r.service, r.external) && NotNewer(s.rows[RowOf(s, r.service, r.external)].updatedAt, r.updatedAt) then
        var k := RowOf(s, r.service, r.external);
        s.(rows := s.rows[k := Patched(s.rows[k], r)])
      else s
    case Stamp(service, external, t) =>
      if Cached(s, service, external) && s.rows[RowOf(s, service, external)].createdAt.None? then
        var k := RowOf(s, service, external);
        s.(rows := s.rows[k := s.rows[k].(createdAt := Some(t))])
      else s
    case Delete(r, now, fault) =>
      s.(rows := if r.id != "" && fault != DeleteFails then s.rows - {r.id} else s.rows,
         history := if !GoesThrough(r, fault) || InHistory(s.history, r.id) then s.history else s.history + [Archived(r, now)])
  }

  ghost predicate IsRun(s: State, ops: seq<Op>)
    decreases |ops|
  {
    ops == [] || (Enabled(s, ops[0]) && IsRun(Next(s, ops[0]), ops[1..]))
  }

  ghost function After(s: State, ops: seq<Op>): State
    requires IsRun(s, ops)
    decreases |ops|
  {
    if ops == [] then s else After(Next(s, ops[0]), ops[1..])
  }

  /** Any operations make a run whose inserts bring ids of their own. */
  lemma {:induction false} OwnIdsRun(s: State, ops: seq<Op>)
    requires forall i :: 0 <= i < |ops| && ops[i].Insert? ==> ops[i].id != "" && ops[i].id !in s.used
    requires forall i, j :: 0 <= i < j < |ops| && ops[i].Insert? && ops[j].Insert? ==> ops[i].id != ops[j].id
    ensures IsRun(s, ops)
    decreases |ops|
  {
    if ops != [] {
      assert Next(s, ops[0]).used <= s.used + if ops[0].Insert? then {ops[0].id} else {};
      assert forall i :: 0 <= i < |ops[1..]| ==> ops[1..][i] == ops[i + 1];
      OwnIdsRun(Next(s, ops[0]), ops[1..]);
    }
  }

  // ----- what every operation keeps -----

  lemma StepKeeps(s: State, op: Op)
    requires Valid(s) && Enabled(s, op)
    ensures Valid(Next(s, op)) && s.used <= Next(s, op).used
  {
  }

  /** The creation date, once set, is never changed while the row lives; and a row once deleted
      does not come back under its id. */
  lemma CreationDateFixed(s: State, op: Op, id: Id)
    requires Valid(s) && Enabled(s, op) && id in s.used
    ensures id in Next(s, op).rows ==> id in s.rows
    ensures id in s.rows && id in Next(s, op).rows && s.rows[id].createdAt.Some? ==> Next(s, op).rows[id].createdAt == s.rows[id].createdAt
  {
  }

  lemma {:induction false} RunKeeps(s: State, ops: seq<Op>, id: Id)
    requires Valid(s) && IsRun(s, ops) && id in s.used
    ensures var z := After(s, ops);
      && Valid(z)
      && (id in z.rows ==> id in s.rows)
      && (id in z.rows && s.rows[id].createdAt.Some? ==> z.rows[id].createdAt == s.rows[id].createdAt)
    decreases |ops|
  {
    hide Next, Valid, Enabled;
    if ops != [] {
      StepKeeps(s, ops[0]);
      CreationDateFixed(s, ops[0], id);
      RunKeeps(Next(s, ops[0]), ops[1..], id);
    }
  }

  lemma {:induction false} RunValid(s: State, ops: seq<Op>)
    requires Valid(s) && IsRun(s, ops)
    ensures Valid(After(s, ops))
    decreases |ops|
  {
    hide Next, Valid, Enabled;
    if ops != [] {
      StepKeeps(s, ops[0]);
      RunValid(Next(s, ops[0]), ops[1..]);
    }
  }

  /** MAIN RESULT.  Over every serial run: at most one row per (service, external id), and the
      creation date a row has at any moment is the one it keeps. */
  lemma CacheIsSound(s: State, before: seq<Op>, after: seq<Op>, id: Id)
    requires s == State(map[], [], {}) && IsRun(s, before) && IsRun(After(s, before), after)
    ensures var y := After(s, before); var z := After(y, after);
      && (forall a, b :: a in z.rows && b in z.rows && z.rows[a].service == z.rows[b].service && z.rows[a].external == z.rows[b].external ==> a == b)
      && (id in y.rows && id in z.rows && y.rows[id].createdAt.Some? ==> z.rows[id].createdAt == y.rows[id].createdAt)
  {
    RunValid(s, before);
    var y := After(s, before);
    RunValid(y, after);
    if id in y.rows { RunKeeps(y, after, id); }
  }

  /** `Update` never replaces a newer `updatedAt` with an older one, writes exactly when the row
      is there and not newer, and touches no other row. */
  lemma UpdateIsOptimistic(s: State, r: Resource, id: Id)
    requires Valid(s) && id in s.rows
    ensures var z := Next(s, Update(r));
      && id in z.rows
      && z.rows[id] == (if s.rows[id].service == r.service && s.rows[id].external == r.external
                           && s.rows[id].updatedAt.Some? && r.updatedAt.Some? && s.rows[id].updatedAt.value <= r.updatedAt.value
                        then Row(r.service, r.external, s.rows[id].createdAt, r.updatedAt, r.payload) else s.rows[id])
      && (s.rows[id].updatedAt.Some? ==> z.rows[id].updatedAt.Some? && s.rows[id].updatedAt.value <= z.rows[id].updatedAt.value)
  {
  }

  /** The row of the pair takes everything but the creation date; a new row takes that too; a
      stamp fills a missing one; a delete removes the row of its id.  No other row changes. */
  lemma RowsChangeExactly(s: State, op: Op, k: Id)
    requires Valid(s) && Enabled(s, op)
    ensures k in s.rows ==>
      var row, z := s.rows[k], Next(s, op);
      match op
      case Insert(r, _) =>
        k in z.rows && z.rows[k] == if row.service == r.service && row.external == r.external then Row(r.service, r.external, row.createdAt, r.updatedAt, r.payload) else row
      case Update(r) => k in z.rows && z.rows[k] in {row, Row(r.service, r.external, row.createdAt, r.updatedAt, r.payload)}
      case Stamp(service, external, t) =>
        k in z.rows && z.rows[k] == if row.service == service && row.external == external && row.createdAt.None? then row.(createdAt := Some(t)) else row
      case Delete(r, _, fault) =>
        (k in z.rows <==> k == "" || k != r.id || fault == DeleteFails) && (k in z.rows ==> z.rows[k] == row)
    ensures k !in s.rows ==>
      (k in Next(s, op).rows <==> op.Insert? && k == op.id && forall a :: a in s.rows ==> s.rows[a].service != op.r.service || s.rows[a].external != op.r.external)
    ensures k !in s.rows && k in Next(s, op).rows ==> Next(s, op).rows[k] == Row(op.r.service, op.r.external, op.r.createdAt, op.r.updatedAt, op.r.payload)
  {
    if op.Insert? && Cached(s, op.r.service, op.r.external) {
      var a := RowOf(s, op.r.service, op.r.external);
      assert a in s.rows && Match(s.rows[a], op.r.service, op.r.external);
    }
  }

  // ----- history -----

  /** How many records the history holds for an id. */
  function Records(h: seq<Hist>, id: Id): nat {
    if h == [] then 0 else Records(h[..|h| - 1], id) + if h[|h| - 1].resource == id then 1 else 0
  }

  lemma {:induction false} NoRecords(h: seq<Hist>, id: Id)
    ensures Records(h, id) == 0 <==> forall i :: 0 <= i < |h| ==> h[i].resource != id
  {
    if h != [] {
      NoRecords(h[..|h| - 1], id);
      assert forall i :: 0 <= i < |h| - 1 ==> h[..|h| - 1][i] == h[i];
    }
  }

  lemma ArchiveOnce(s: State, r: Resource, now: Time, fault: DeleteFault, id: Id)
    ensures var op := Delete(r, now, fault);
      Records(Next(s, op).history, id) == Records(s.history, id) + if Archives(op, id) && (id == "" || Records(s.history, id) == 0) then 1 else 0
  {
    NoRecords(s.history, r.id);
    var h := s.history + [Archived(r, now)];
    assert h[..|h| - 1] == s.history;
  }

  lemma {:induction false} HistoryOfRun(s: State, ops: seq<Op>, id: Id)
    requires IsRun(s, ops) && id != "" && Records(s.history, id) <= 1
    ensures var n := Records(After(s, ops).history, id);
      n == if Records(s.history, id) == 1 || (exists i :: 0 <= i < |ops| && Archives(ops[i], id)) then 1 else 0
    decreases |ops|
  {
    hide Next, Enabled, Records;
    if ops != [] {
      var t := Next(s, ops[0]);
      StepHistory(s, ops[0], id);
      HistoryOfRun(t, ops[1..], id);
      var n := Records(After(s, ops).history, id);
      if exists i :: 0 <= i < |ops| && Archives(ops[i], id) {
        var i :| 0 <= i < |ops| && Archives(ops[i], id);
        if i > 0 { assert ops[1..][i - 1] == ops[i]; }
      }
      if exists i :: 0 <= i < |ops[1..]| && Archives(ops[1..][i], id) {
        var i :| 0 <= i < |ops[1..]| && Archives(ops[1..][i], id);
        assert ops[i + 1] == ops[1..][i];
      }
    }
  }

  lemma StepHistory(s: State, op: Op, id: Id)
    requires Enabled(s, op) && id != "" && Records(s.history, id) <= 1
    ensures Records(Next(s, op).history, id) == if Records(s.history, id) == 1 || Archives(op, id) then 1 else 0
  {
    if op.Delete? { ArchiveOnce(s, op.r, op.now, op.fault, id); }
  }

  /** MAIN RESULT.  For a resource with an id the history holds exactly one record if some delete
      went through to the archive, however many did, and none otherwise; without an id every one
      adds another, because the idempotence check looks for an empty string that is never
      stored. */
  lemma ArchiveIsIdempotent(s: State, ops: seq<Op>, id: Id)
    requires s == State(map[], [], {}) && IsRun(s, ops)
    ensures id != "" ==> Records(After(s, ops).history, id) == if exists i :: 0 <= i < |ops| && Archives(ops[i], id) then 1 else 0
    ensures id == "" ==> Records(After(s, ops).history, id) == Archivings(ops, id)
  {
    if id != "" {
      HistoryOfRun(s, ops, id);
    } else {
      EveryArchiveCounts(s, ops);
    }
  }

  function Archivings(ops: seq<Op>, id: Id): nat {
    if ops == [] then 0 else (if Archives(ops[0], id) then 1 else 0) + Archivings(ops[1..], id)
  }

  lemma {:induction false} EveryArchiveCounts(s: State, ops: seq<Op>)
    requires IsRun(s, ops)
    ensures Records(After(s, ops).history, "") == Records(s.history, "") + Archivings(ops, "")
    decreases |ops|
  {
    if ops != [] {
      if ops[0].Delete? { ArchiveOnce(s, ops[0].r, ops[0].now, ops[0].fault, ""); }
      EveryArchiveCounts(Next(s, ops[0]), ops[1..]);
    }
  }

  // ----- the recreation guard -----

  /** A deletion of the pair that a filter on the pair can find. */
  predicate DeletionOf(h: Hist, service: string, external: string) {
    service != "" && external != "" && h.service == service && h.external == external
  }

  /** The recreation guard's answer on a history. */
  predicate DeletedAfter(history: seq<Hist>, service: string, external: string, snapshot: Option<Time>) {
    snapshot.Some? && exists i :: 0 <= i < |history| && DeletionOf(history[i], service, external) && history[i].deletedAt > snapshot.value
  }

  /** A delete whose row deletion, if it has one, and whose archive both succeed. */
  predicate Lands(op: Op) {
    op.Delete? && (op.fault == DeleteOk || (op.fault == DeleteFails && op.r.id == ""))
  }

  /** The i-th operation is a delete that is archived: the first to land for its id, or any that
      lands without one. */
  predicate Recorded(ops: seq<Op>, i: nat) {
    i < |ops| && Lands(ops[i]) && (ops[i].r.id == "" || forall j :: 0 <= j < i && Lands(ops[j]) ==> ops[j].r.id != ops[i].r.id)
  }

  /** The same, over a history that is there already. */
  predicate RecordedOver(h: seq<Hist>, ops: seq<Op>, i: nat) {
    Recorded(ops, i) && (ops[i].r.id == "" || forall k :: 0 <= k < |h| ==> h[k].resource != ops[i].r.id)
  }

  lemma RecordedTail(h: seq<Hist>, h': seq<Hist>, ops: seq<Op>, i: nat)
    requires 0 < i < |ops|
    requires h' == if RecordedOver(h, ops, 0) then h + [Archived(ops[0].r, ops[0].now)] else h
    ensures RecordedOver(h, ops, i) <==> RecordedOver(h', ops[1..], i - 1)
  {
    var rest, id := ops[1..], if ops[i].Delete? then ops[i].r.id else "";
    assert rest[i - 1] == ops[i];
    assert forall j :: 0 < j <= i ==> rest[j - 1] == ops[j];
    if RecordedOver(h, ops, i) && id != "" {
      if RecordedOver(h, ops, 0) { assert h'[|h|].resource == ops[0].r.id != id; }
    }
    if RecordedOver(h', rest, i - 1) && id != "" {
      forall k | 0 <= k < |h| ensures h[k].resource != id { assert h'[k] == h[k]; }
      forall j | 0 <= j < i && Lands(ops[j]) ensures ops[j].r.id != id {
        if j > 0 {
          assert rest[j - 1] == ops[j];
        } else if RecordedOver(h, ops, 0) {
          assert h'[|h|].resource == ops[0].r.id;
        }
      }
    }
  }

  lemma {:induction false} RecordsOfRun(s: State, ops: seq<Op>, h: Hist)
    requires IsRun(s, ops)
    ensures h in After(s, ops).history <==>
      h in s.history || exists i: nat :: RecordedOver(s.history, ops, i) && h == Archived(ops[i].r, ops[i].now)
    decreases |ops|
  {
    if ops != [] {
      hide Recorded;
      var t := Next(s, ops[0]);
      StepRecords(s, ops);
      RecordsOfRun(t, ops[1..], h);
      forall i | 0 < i < |ops| ensures RecordedOver(s.history, ops, i) <==> RecordedOver(t.history, ops[1..], i - 1) {
        RecordedTail(s.history, t.history, ops, i);
      }
      if i: nat :| RecordedOver(t.history, ops[1..], i) && h == Archived(ops[1..][i].r, ops[1..][i].now) {
        assert RecordedOver(s.history, ops, i + 1) && ops[i + 1] == ops[1..][i];
      }
      if i: nat :| RecordedOver(s.history, ops, i) && h == Archived(ops[i].r, ops[i].now) {
        if i > 0 { assert RecordedOver(t.history, ops[1..], i - 1) && ops[1..][i - 1] == ops[i]; }
      }
    }
  }

  lemma StepRecords(s: State, ops: seq<Op>)
    requires ops != [] && Enabled(s, ops[0])
    ensures Next(s, ops[0]).history == if RecordedOver(s.history, ops, 0) then s.history + [Archived(ops[0].r, ops[0].now)] else s.history
  {
  }

  /** MAIN RESULT.  From the empty cache, what the operations were decides what the history holds
      and what the guard answers: it says yes exactly when some archived delete of that service and
      external id came after the snapshot.  On an empty service or external id it never does. */
  lemma GuardOverRuns(s: State, ops: seq<Op>, service: string, external: string, snapshot: Option<Time>)
    requires s == State(map[], [], {}) && IsRun(s, ops)
    ensures forall h :: h in After(s, ops).history <==>
      exists i: nat :: Recorded(ops, i) && h == Hist(ops[i].r.id, ops[i].r.service, ops[i].r.external, ops[i].r.createdAt, ops[i].now, ops[i].r.payload)
    ensures service != "" && external != "" ==>
      (DeletedAfter(After(s, ops).history, service, external, snapshot) <==>
       snapshot.Some? && exists i: nat :: Recorded(ops, i) && ops[i].r.service == service && ops[i].r.external == external && ops[i].now > snapshot.value)
    ensures service == "" || external == "" ==> !DeletedAfter(After(s, ops).history, service, external, snapshot)
  {
    hide After, IsRun;
    var z := After(s, ops).history;
    forall h ensures h in z <==> exists i: nat :: Recorded(ops, i) && h == Hist(ops[i].r.id, ops[i].r.service, ops[i].r.external, ops[i].r.createdAt, ops[i].now, ops[i].r.payload) {
      RecordsOfRun(s, ops, h);
      assert forall i: nat :: RecordedOver(s.history, ops, i) <==> Recorded(ops, i);
    }
    if snapshot.Some? && service != "" && external != "" {
      if i: nat :| Recorded(ops, i) && ops[i].r.service == service && ops[i].r.external == external && ops[i].now > snapshot.value {
        var h := Hist(ops[i].r.id, ops[i].r.service, ops[i].r.external, ops[i].r.createdAt, ops[i].now, ops[i].r.payload);
        assert h in z;
        assert DeletionOf(h, service, external);
      }
      if DeletedAfter(z, service, external, snapshot) {
        var k :| 0 <= k < |z| && DeletionOf(z[k], service, external) && z[k].deletedAt > snapshot.value;
        assert z[k] in z;
      }
    }
  }

  /** `WasUserDeletedAfter`: the latest deletion of the pair, compared with the snapshot. */
  method WasUserDeletedAfter(history: seq<Hist>, service: string, external: string, snapshot: Option<Time>) returns (b: bool)
    ensures b <==> DeletedAfter(history, service, external, snapshot)
  {
    if snapshot.None? { return false; }
    var latest: Option<Time> := None;
    for i := 0 to |history|
      invariant latest.None? ==> forall k :: 0 <= k < i ==> !DeletionOf(history[k], service, external)
      invariant latest.Some? ==> exists k :: 0 <= k < i && DeletionOf(history[k], service, external) && history[k].deletedAt == latest.value
      invariant latest.Some? ==> forall k :: 0 <= k < i && DeletionOf(history[k], service, external) ==> history[k].deletedAt <= latest.value
    {
      if DeletionOf(history[i], service, external) && (latest.None? || history[i].deletedAt > latest.value) {
        latest := Some(history[i].deletedAt);
      }
    }
    b := latest.Some? && latest.value > snapshot.value;
  }

  // ----- the repository as it runs -----

  class Repo {
    var rows: map<Id, Row>
    var history: seq<Hist>
    ghost var used: set<Id>

    constructor ()
      ensures View() == State(map[], [], {})
    {
      rows, history, used := map[], [], {};
    }

    ghost function View(): State
      reads this
    {
      State(rows, history, used)
    }

    /** `FindOneForUpdate` on the pair. */
    method Find(service: string, external: string) returns (found: Option<Id>)
      ensures found.Some? ==> found.value in rows && Match(rows[found.value], service, external)
      ensures found.None? <==> !Cached(View(), service, external)
    {
      var rest := rows.Keys;
      while rest != {}
        invariant rest <= rows.Keys
        invariant forall id :: id in rows && id !in rest ==> !Match(rows[id], service, external)
        decreases |rest|
      {
        var id :| id in rest;
        if Match(rows[id], service, external) { return Some(id); }
        rest := rest - {id};
      }
      found := None;
    }

    /** Upsert; the creation date is written only when the row is created. */
    method InsertResource(r: Resource, newId: Id) returns (out: Row)
      requires Valid(View()) && newId != "" && newId !in used
      modifies this
      ensures View() == Next(old(View()), Insert(r, newId)) && Valid(View())
      ensures out in rows.Values && Match(out, r.service, r.external) && out.payload == r.payload && out.updatedAt == r.updatedAt
    {
      StepKeeps(View(), Insert(r, newId));
      var found := Find(r.service, r.external);
      if found.Some? {
        assert found.value == RowOf(View(), r.service, r.external);
        rows := rows[found.value := Patched(rows[found.value], r)];
        out := rows[found.value];
      } else {
        rows := rows[newId := FreshRow(r)];
        used := used + {newId};
        out := rows[newId];
      }
    }

    /** None when there is no row or a newer one is stored. */
    method UpdateResource(r: Resource) returns (out: Option<Row>)
      requires Valid(View())
      modifies this
      ensures View() == Next(old(View()), Update(r)) && Valid(View())
      ensures out.Some? ==> out.value in rows.Values && Match(out.value, r.service, r.external) && out.value.payload == r.payload
      ensures out.None? ==> View() == old(View())
    {
      StepKeeps(View(), Update(r));
      var found := Find(r.service, r.external);
      if found.None? { return None; }
      assert found.value == RowOf(View(), r.service, r.external);
      var cur := rows[found.value];
      if cur.updatedAt.None? || r.updatedAt.None? || cur.updatedAt.value > r.updatedAt.value { return None; }
      rows := rows[found.value := Patched(cur, r)];
      out := Some(rows[found.value]);
    }

    method StampCreatedAtIfNull(service: string, external: string, t: Time)
      requires Valid(View())
      modifies this
      ensures View() == Next(old(View()), Stamp(service, external, t)) && Valid(View())
    {
      StepKeeps(View(), Stamp(service, external, t));
      var found := Find(service, external);
      if found.Some? {
        assert found.value == RowOf(View(), service, external);
        if rows[found.value].createdAt.None? { rows := rows[found.value := rows[found.value].(createdAt := Some(t))]; }
      }
    }

    /** The row first, then the history record; a failed delete stops before the archive. */
    method DeleteAndArchive(r: Resource, now: Time, fault: DeleteFault) returns (ok: bool)
      requires Valid(View())
      modifies this
      ensures ok <==> GoesThrough(r, fault)
      ensures View() == Next(old(View()), Delete(r, now, fault)) && Valid(View())
    {
      StepKeeps(View(), Delete(r, now, fault));
      if r.id != "" {
        if fault == DeleteFails { return false; }
        rows := rows - {r.id};
      }
      if fault == ArchiveFails { return false; }
      for i := 0 to |history|
        invariant r.id != "" ==> forall k :: 0 <= k < i ==> history[k].resource != r.id
      {
        if r.id != "" && history[i].resource == r.id { return true; }
      }
      history := history + [Archived(r, now)];
      ok := true;
    }
  }
}
