/** `setUnsetSQL`: a `$set`/`$unset` update compiled to the text of one nested jsonb expression,
    the parser that reads the text, and what it computes for the order in which Go happened to
    iterate the map of set keys. */
module UpdateSql {
  import opened Base
  import opened Ordering
  import opened Sql
  import opened Filter
  import opened SetUnset

  // ----- expressions and their text -----

  datatype DocExpr =
    | DDoc
    | DSet(e: DocExpr, path: string, p: nat)
    | DConcat(e: DocExpr, p: nat)
    | DDelPath(e: DocExpr, path: string)
    | DDelKeys(e: DocExpr, p: nat)

  /** `doc`, `jsonb_set(`, parentheses, the operators `||`, `#-` and `-`, a quoted literal, a
      placeholder, the casts `::jsonb` and `::text[]`, and `true`. */
  datatype UToken = UDoc | USet | UOpen | UClose | UComma | UBars | UHash | UMinus | ULit(s: string) | UParam(i: nat) | UJson | UTexts | UTrue

  function TextOf(e: DocExpr): seq<UToken> {
    match e
    case DDoc => [UDoc]
    case DSet(e1, path, p) => [USet] + TextOf(e1) + [UComma, ULit(path), UComma, UParam(p), UJson, UComma, UTrue, UClose]
    case DConcat(e1, p) => [UOpen] + TextOf(e1) + [UBars, UParam(p), UJson, UClose]
    case DDelPath(e1, path) => [UOpen] + TextOf(e1) + [UHash, ULit(path), UClose]
    case DDelKeys(e1, p) => [UOpen] + TextOf(e1) + [UMinus, UParam(p), UTexts, UClose]
  }

  /** The first expression in the text, and what follows it. */
  function ParseDoc(ts: seq<UToken>): Option<(DocExpr, seq<UToken>)>
    decreases |ts|
  {
    if ts == [] then None
    else if ts[0] == UDoc then Some((DDoc, ts[1..]))
    else if ts[0] == USet || ts[0] == UOpen then
      match ParseDoc(ts[1..]) { case None => None case Some((e, rest)) => if ts[0] == USet then SetTail(e, rest) else OpTail(e, rest) }
    else None
  }

  function SetTail(e: DocExpr, ts: seq<UToken>): Option<(DocExpr, seq<UToken>)> {
    if |ts| >= 8 && ts[0] == UComma && ts[1].ULit? && ts[2] == UComma && ts[3].UParam? && ts[4..8] == [UJson, UComma, UTrue, UClose]
    then Some((DSet(e, ts[1].s, ts[3].i), ts[8..])) else None
  }

  function OpTail(e: DocExpr, ts: seq<UToken>): Option<(DocExpr, seq<UToken>)> {
    if |ts| >= 4 && ts[0] == UBars && ts[1].UParam? && ts[2] == UJson && ts[3] == UClose then Some((DConcat(e, ts[1].i), ts[4..]))
    else if |ts| >= 3 && ts[0] == UHash && ts[1].ULit? && ts[2] == UClose then Some((DDelPath(e, ts[1].s), ts[3..]))
    else if |ts| >= 4 && ts[0] == UMinus && ts[1].UParam? && ts[2] == UTexts && ts[3] == UClose then Some((DDelKeys(e, ts[1].i), ts[4..]))
    else None
  }

  /** Every expression reads back from its text, whatever follows it. */
  lemma {:induction false} DocReadsBack(e: DocExpr, rest: seq<UToken>)
    ensures ParseDoc(TextOf(e) + rest) == Some((e, rest))
  {
    if e == DDoc {
      assert ([UDoc] + rest)[1..] == rest;
    } else {
      DocReadsBack(e.e, Tail(e) + rest);
      StepReadsBack(e, rest);
    }
  }

  lemma StepReadsBack(e: DocExpr, rest: seq<UToken>)
    requires e != DDoc && ParseDoc(TextOf(e.e) + (Tail(e) + rest)) == Some((e.e, Tail(e) + rest))
    ensures ParseDoc(TextOf(e) + rest) == Some((e, rest))
  {
    hide TextOf, Tail, SetTail, OpTail;
    WrappedText(e.e, e);
    TailReadsBack(e, rest);
    var ts := TextOf(e) + rest;
    assert ts == [if e.DSet? then USet else UOpen] + (TextOf(e.e) + (Tail(e) + rest));
    assert ts[1..] == TextOf(e.e) + (Tail(e) + rest);
  }

  function Tail(e: DocExpr): seq<UToken>
    requires e != DDoc
  {
    match e
    case DSet(_, path, p) => [UComma, ULit(path), UComma, UParam(p), UJson, UComma, UTrue, UClose]
    case DConcat(_, p) => [UBars, UParam(p), UJson, UClose]
    case DDelPath(_, path) => [UHash, ULit(path), UClose]
    case DDelKeys(_, p) => [UMinus, UParam(p), UTexts, UClose]
  }

  lemma TailReadsBack(e: DocExpr, rest: seq<UToken>)
    requires e != DDoc
    ensures (if e.DSet? then SetTail(e.e, Tail(e) + rest) else OpTail(e.e, Tail(e) + rest)) == Some((e, rest))
  {
    var ts := Tail(e) + rest;
    assert ts[|Tail(e)|..] == rest;
    if e.DSet? { assert ts[4..8] == [UJson, UComma, UTrue, UClose]; }
  }

  // ----- evaluation -----

  function EvalDoc(e: DocExpr, doc: Json, args: seq<V>): Option<Json> {
    match e
    case DDoc => Some(doc)
    case DSet(e1, path, p) =>
      var j, q := EvalDoc(e1, doc, args), ParsePath(path);
      if j.Some? && q.Some? && 1 <= p <= |args| && args[p - 1].JsonV? then SetAt(j.value, q.value, args[p - 1].j) else None
    case DConcat(e1, p) =>
      var j := EvalDoc(e1, doc, args);
      if j.Some? && j.value.JObj? && 1 <= p <= |args| && args[p - 1].JsonV? && args[p - 1].j.JObj? then Some(JObj(j.value.fields + args[p - 1].j.fields)) else None
    case DDelPath(e1, path) =>
      var j, q := EvalDoc(e1, doc, args), ParsePath(path);
      if j.Some? && q.Some? then DelAt(j.value, q.value) else None
    case DDelKeys(e1, p) =>
      var j := EvalDoc(e1, doc, args);
      if j.Some? && j.value.JObj? && 1 <= p <= |args| && args[p - 1].Texts? then Some(JObj(j.value.fields - KeySet(args[p - 1].ss))) else None
  }

  function SetAt(j: Json, p: Path, v: Json): Option<Json> {
    if Reaches(j, p) then Some(JsonSet(j, p, v)) else None
  }

  function DelAt(j: Json, p: Path): Option<Json> {
    if Reaches(j, p) then Some(JsonDel(j, p)) else None
  }

  /** What PostgreSQL makes of the text; None is an error. */
  function RunText(ts: seq<UToken>, doc: Json, args: seq<V>): Option<Json> {
    match ParseDoc(ts)
    case Some((e, rest)) => if rest == [] then EvalDoc(e, doc, args) else None
    case None => None
  }

  function DocParams(ts: seq<UToken>): seq<nat> {
    if ts == [] then [] else DocParams(ts[..|ts| - 1]) + (if ts[|ts| - 1].UParam? then [ts[|ts| - 1].i] else [])
  }

  // ----- the outcome, for one order of the set keys -----

  /** The dotted set keys one after the other. */
  function SetsInOrder(doc: Json, s: map<string, Val>, order: seq<string>): Option<Json>
    requires forall k :: k in order ==> k in s
    decreases |order|
  {
    if order == [] then Some(doc)
    else
      var k, before := order[|order| - 1], SetsInOrder(doc, s, order[..|order| - 1]);
      if before.Some? then SetAt(before.value, Split(k, '.'), Encode(s[k])) else None
  }

  /** The dotted unsets one after the other; the others wait. */
  function DelsInOrder(j: Json, unset: seq<string>): Option<Json>
    decreases |unset|
  {
    if unset == [] then Some(j)
    else
      var k, before := unset[|unset| - 1], DelsInOrder(j, unset[..|unset| - 1]);
      if before.Some? && IsDotted(k) then DelAt(before.value, Split(k, '.')) else before
  }

  function FlatKeys(unset: seq<string>): seq<string> {
    if unset == [] then []
    else FlatKeys(unset[..|unset| - 1]) + (if IsDotted(unset[|unset| - 1]) then [] else [unset[|unset| - 1]])
  }

  /** Dotted sets, then the top-level sets, then dotted unsets. */
  function Upto(doc: Json, s: map<string, Val>, order: seq<string>, flat: map<string, Json>, unset: seq<string>): Option<Json>
    requires forall k :: k in order ==> k in s
  {
    match SetsInOrder(doc, s, order)
    case Some(JObj(fields)) => DelsInOrder(JObj(fields + flat), unset)
    case _ => None
  }

  function Outcome(doc: Json, s: map<string, Val>, order: seq<string>, unset: seq<string>): Option<Json>
    requires forall k :: k in order ==> k in s
  {
    match Upto(doc, s, order, FlatOf(s), unset)
    case Some(JObj(fields)) => Some(JObj(fields - KeySet(FlatKeys(unset))))
    case _ => None
  }

  lemma {:induction false} SetsGiveObjects(doc: Json, s: map<string, Val>, order: seq<string>)
    requires doc.JObj? && forall k :: k in order ==> k in s
    ensures SetsInOrder(doc, s, order).Some? ==> SetsInOrder(doc, s, order).value.JObj?
  {
    hide Split;
    if order != [] { SetsGiveObjects(doc, s, order[..|order| - 1]); }
  }

  lemma {:induction false} DelsGiveObjects(j: Json, unset: seq<string>)
    requires j.JObj?
    ensures DelsInOrder(j, unset).Some? ==> DelsInOrder(j, unset).value.JObj?
  {
    hide Split;
    if unset != [] { DelsGiveObjects(j, unset[..|unset| - 1]); }
  }

  // ----- what the loops have built so far -----

  ghost predicate YieldsAt(e: DocExpr, args: seq<V>, s: map<string, Val>, order: seq<string>, flat: map<string, Json>, unset: seq<string>, doc: Json, all: seq<V>)
    requires forall k :: k in order ==> k in s
  {
    doc.JObj? && args <= all ==> EvalDoc(e, doc, all) == Upto(doc, s, order, flat, unset)
  }

  /** On every document and every extension of the arguments, `e` computes the given stage. */
  ghost predicate Yields(e: DocExpr, args: seq<V>, s: map<string, Val>, order: seq<string>, flat: map<string, Json>, unset: seq<string>) {
    (forall k :: k in order ==> k in s) && forall doc: Json, all: seq<V> :: YieldsAt(e, args, s, order, flat, unset, doc, all)
  }

  lemma NothingMerged(doc: Json, s: map<string, Val>, order: seq<string>)
    requires doc.JObj? && forall k :: k in order ==> k in s
    ensures Upto(doc, s, order, map[], []) == SetsInOrder(doc, s, order)
  {
    SetsGiveObjects(doc, s, order);
    var j := SetsInOrder(doc, s, order);
    if j.Some? { assert j.value.fields + map[] == j.value.fields; }
  }

  lemma YieldsDoc(args: seq<V>, s: map<string, Val>)
    ensures Yields(DDoc, args, s, [], map[], [])
  {
    forall doc: Json, all: seq<V> ensures YieldsAt(DDoc, args, s, [], map[], [], doc, all) {
      if doc.JObj? { NothingMerged(doc, s, []); }
    }
  }

  lemma YieldsSet(e: DocExpr, args: seq<V>, s: map<string, Val>, order: seq<string>, k: string)
    requires Yields(e, args, s, order, map[], []) && k in s && IsDotted(k) && PlainPath(k)
    ensures Yields(DSet(e, PathLit(Split(k, '.')), |args| + 1), args + [JsonV(Encode(s[k]))], s, order + [k], map[], [])
  {
    hide SetAt, ParsePath, PathLit, Split, Upto;
    var p := Split(k, '.');
    assert ParsePath(PathLit(p)) == Some(p) by { PlainIsElem(p); PathLitRoundTrip(p); }
    var args', order', e' := args + [JsonV(Encode(s[k]))], order + [k], DSet(e, PathLit(p), |args| + 1);
    forall doc: Json, all: seq<V> ensures YieldsAt(e', args', s, order', map[], [], doc, all) {
      if doc.JObj? && args' <= all {
        assert args <= all && all[|args|] == JsonV(Encode(s[k]));
        assert YieldsAt(e, args, s, order, map[], [], doc, all);
        NothingMerged(doc, s, order);
        NothingMerged(doc, s, order');
        assert order'[..|order|] == order;
      }
    }
  }

  lemma PlainIsElem(p: Path)
    requires forall x :: x in p ==> PlainPart(x)
    ensures forall x :: x in p ==> ArrayElem(x)
  {
  }

  lemma YieldsConcat(e: DocExpr, args: seq<V>, s: map<string, Val>, order: seq<string>, flat: map<string, Json>)
    requires Yields(e, args, s, order, map[], [])
    ensures Yields(DConcat(e, |args| + 1), args + [JsonV(JObj(flat))], s, order, flat, [])
  {
    var args', e' := args + [JsonV(JObj(flat))], DConcat(e, |args| + 1);
    forall doc: Json, all: seq<V> ensures YieldsAt(e', args', s, order, flat, [], doc, all) {
      if doc.JObj? && args' <= all {
        assert args <= all && all[|args|] == JsonV(JObj(flat));
        assert YieldsAt(e, args, s, order, map[], [], doc, all);
        NothingMerged(doc, s, order);
        SetsGiveObjects(doc, s, order);
      }
    }
  }

  lemma YieldsDelPath(e: DocExpr, args: seq<V>, s: map<string, Val>, order: seq<string>, flat: map<string, Json>, unset: seq<string>, k: string)
    requires Yields(e, args, s, order, flat, unset) && IsDotted(k) && PlainPath(k)
    ensures Yields(DDelPath(e, PathLit(Split(k, '.'))), args, s, order, flat, unset + [k])
  {
    hide DelAt, ParsePath, PathLit, Split, SetsInOrder;
    var p := Split(k, '.');
    assert ParsePath(PathLit(p)) == Some(p) by { PlainIsElem(p); PathLitRoundTrip(p); }
    assert (unset + [k])[..|unset|] == unset;
    forall doc: Json, all: seq<V> ensures YieldsAt(DDelPath(e, PathLit(p)), args, s, order, flat, unset + [k], doc, all) {
      assert YieldsAt(e, args, s, order, flat, unset, doc, all);
    }
  }

  lemma YieldsLater(e: DocExpr, args: seq<V>, s: map<string, Val>, order: seq<string>, flat: map<string, Json>, unset: seq<string>, k: string)
    requires Yields(e, args, s, order, flat, unset) && !IsDotted(k)
    ensures Yields(e, args, s, order, flat, unset + [k])
  {
    hide SetsInOrder, EvalDoc;
    assert (unset + [k])[..|unset|] == unset;
    forall doc: Json, all: seq<V> ensures YieldsAt(e, args, s, order, flat, unset + [k], doc, all) {
      assert YieldsAt(e, args, s, order, flat, unset, doc, all);
    }
  }

  /** On every document and every extension of the arguments, the text computes the outcome. */
  ghost predicate Computes(ts: seq<UToken>, args: seq<V>, s: map<string, Val>, order: seq<string>, unset: seq<string>) {
    (forall k :: k in order ==> k in s) &&
    forall doc: Json, all: seq<V> :: doc.JObj? && args <= all ==> RunText(ts, doc, all) == Outcome(doc, s, order, unset)
  }

  lemma UptoGivesObjects(doc: Json, s: map<string, Val>, order: seq<string>, flat: map<string, Json>, unset: seq<string>)
    requires doc.JObj? && forall k :: k in order ==> k in s
    ensures Upto(doc, s, order, flat, unset).Some? ==> Upto(doc, s, order, flat, unset).value.JObj?
  {
    var j := SetsInOrder(doc, s, order);
    if j.Some? && j.value.JObj? { DelsGiveObjects(JObj(j.value.fields + flat), unset); }
  }

  /** With no top-level unset the last stage is the outcome; otherwise one more operator is. */
  lemma YieldsOutcome(e: DocExpr, args: seq<V>, s: map<string, Val>, order: seq<string>, unset: seq<string>)
    requires Yields(e, args, s, order, FlatOf(s), unset)
    ensures FlatKeys(unset) == [] ==> Computes(TextOf(e), args, s, order, unset)
    ensures Computes(TextOf(DDelKeys(e, |args| + 1)), args + [Texts(FlatKeys(unset))], s, order, unset)
  {
    hide TextOf, EvalDoc, RunText, Outcome, Upto;
    var e', args' := DDelKeys(e, |args| + 1), args + [Texts(FlatKeys(unset))];
    forall doc: Json, all: seq<V> | doc.JObj?
      ensures args <= all && FlatKeys(unset) == [] ==> RunText(TextOf(e), doc, all) == Outcome(doc, s, order, unset)
      ensures args' <= all ==> RunText(TextOf(e'), doc, all) == Outcome(doc, s, order, unset)
    {
      assert YieldsAt(e, args, s, order, FlatOf(s), unset, doc, all);
      TextRuns(e, doc, all);
      TextRuns(e', doc, all);
      assert args <= args';
      if args <= all { LastStage(e, args, s, order, unset, doc, all); }
    }
  }

  lemma TextRuns(e: DocExpr, doc: Json, all: seq<V>)
    ensures RunText(TextOf(e), doc, all) == EvalDoc(e, doc, all)
  {
    hide TextOf, EvalDoc;
    assert TextOf(e) + [] == TextOf(e);
    DocReadsBack(e, []);
  }

  lemma LastStage(e: DocExpr, args: seq<V>, s: map<string, Val>, order: seq<string>, unset: seq<string>, doc: Json, all: seq<V>)
    requires (forall k :: k in order ==> k in s) && doc.JObj? && args <= all && EvalDoc(e, doc, all) == Upto(doc, s, order, FlatOf(s), unset)
    ensures FlatKeys(unset) == [] ==> EvalDoc(e, doc, all) == Outcome(doc, s, order, unset)
    ensures args + [Texts(FlatKeys(unset))] <= all ==> EvalDoc(DDelKeys(e, |args| + 1), doc, all) == Outcome(doc, s, order, unset)
  {
    hide Upto;
    UptoGivesObjects(doc, s, order, FlatOf(s), unset);
    var r, keys := Upto(doc, s, order, FlatOf(s), unset), FlatKeys(unset);
    if args + [Texts(keys)] <= all { assert all[|args|] == Texts(keys); }
    if r.Some? && keys == [] { assert r.value.fields - KeySet(keys) == r.value.fields; }
  }

  // ----- placeholders -----

  ghost predicate Consecutive(ts: seq<UToken>, before: nat, after: nat) {
    before <= after && DocParams(ts) == seq(after - before, i => before + 1 + i)
  }

  lemma {:induction false} ParamsAppend(a: seq<UToken>, b: seq<UToken>)
    ensures DocParams(a + b) == DocParams(a) + DocParams(b)
    decreases |b|
  {
    if b == [] {
      assert a + b == a;
    } else {
      ParamsAppend(a, b[..|b| - 1]);
      assert (a + b)[..|a + b| - 1] == a + b[..|b| - 1] && (a + b)[|a + b| - 1] == b[|b| - 1];
    }
  }

  lemma {:induction false} NoParams(ts: seq<UToken>)
    requires forall i :: 0 <= i < |ts| ==> !ts[i].UParam?
    ensures DocParams(ts) == []
  {
    if ts != [] { NoParams(ts[..|ts| - 1]); }
  }

  lemma OneParam(a: seq<UToken>, p: nat, b: seq<UToken>)
    requires (forall i :: 0 <= i < |a| ==> !a[i].UParam?) && forall i :: 0 <= i < |b| ==> !b[i].UParam?
    ensures DocParams(a + [UParam(p)] + b) == [p]
  {
    assert DocParams([UParam(p)]) == [p] by { assert [UParam(p)][..0] == []; }
    hide DocParams;
    NoParams(a);
    NoParams(b);
    ParamsAppend(a, [UParam(p)]);
    ParamsAppend(a + [UParam(p)], b);
  }

  /** Wrapping a text keeps its placeholders and appends those of the new operator. */
  lemma WrappedParams(ts: seq<UToken>, e: DocExpr)
    requires e != DDoc
    ensures DocParams([if e.DSet? then USet else UOpen] + ts + Tail(e)) == DocParams(ts) + (if e.DDelPath? then [] else [e.p])
  {
    hide Tail, DocParams;
    var open := if e.DSet? then USet else UOpen;
    ParamsAppend([open] + ts, Tail(e));
    ParamsAppend([open], ts);
    NoParams([open]);
    TailParams(e);
    assert [] + DocParams(ts) == DocParams(ts);
  }

  lemma TailParams(e: DocExpr)
    requires e != DDoc
    ensures DocParams(Tail(e)) == if e.DDelPath? then [] else [e.p]
  {
    hide DocParams;
    match e
    case DSet(_, path, p) =>
      var a, b := [UComma, ULit(path), UComma], [UJson, UComma, UTrue, UClose];
      assert Tail(e) == a + [UParam(p)] + b;
      OneParam(a, p, b);
    case DConcat(_, p) =>
      assert Tail(e) == [UBars] + [UParam(p)] + [UJson, UClose];
      OneParam([UBars], p, [UJson, UClose]);
    case DDelPath(_, path) => NoParams(Tail(e));
    case DDelKeys(_, p) =>
      assert Tail(e) == [UMinus] + [UParam(p)] + [UTexts, UClose];
      OneParam([UMinus], p, [UTexts, UClose]);
  }

  lemma ConsecutiveStep(ts: seq<UToken>, e: DocExpr, before: nat, after: nat)
    requires Consecutive(ts, before, after) && e != DDoc && (!e.DDelPath? ==> e.p == after + 1)
    ensures Consecutive([if e.DSet? then USet else UOpen] + ts + Tail(e), before, if e.DDelPath? then after else after + 1)
  {
    WrappedParams(ts, e);
  }

  // ----- the compiler -----

  function DottedKeys(s: map<string, Val>): set<string> {
    set k | k in s && IsDotted(k)
  }

  /** An order in which Go may take the dotted set keys. */
  ghost predicate Lists(order: seq<string>, s: map<string, Val>) {
    multiset(order) == multiset(DottedKeys(s))
  }

  lemma ListedKeys(order: seq<string>, s: map<string, Val>)
    requires Lists(order, s)
    ensures forall k :: k in order <==> k in DottedKeys(s)
    ensures forall i, j :: 0 <= i < j < |order| ==> order[i] != order[j]
  {
    forall k ensures k in order <==> k in DottedKeys(s) {
      assert k in order <==> k in multiset(order);
    }
    forall i, j | 0 <= i < j < |order| ensures order[i] != order[j] {
      ListingHasNoDuplicates(order, DottedKeys(s), i, j);
    }
  }

  /** MAIN RESULT.  For every set map and unset list: the text built computes, on every document
      and with the arguments bound, the outcome for the order in which the map was iterated,
      errors included; the call fails exactly when some value has no JSON form; and the
      placeholders are the next consecutive numbers in text order. */
  method SetUnsetSQL(s: map<string, Val>, unset: seq<string>, args: seq<V>)
    returns (r: Result<seq<UToken>>, args': seq<V>, ghost order: seq<string>)
    requires PlainKeys(s, unset)
    ensures r.Ok? <==> forall k :: k in s ==> Encodable(s[k])
    ensures args <= args'
    ensures r.Ok? ==> Lists(order, s) && Computes(r.value, args', s, order, unset) && Consecutive(r.value, |args|, |args'|)
  {
    hide Encode, Encodable, Yields, Consecutive, Computes, TextOf, Tail;
    var ok, expr, flat, bound;
    ghost var e;
    ok, expr, flat, bound, e, order := DottedSQL(s, args);
    args' := bound;
    if !ok { return Err("encode value"), args', order; }
    if flat != map[] {
      if exists k :: k in flat && !Encodable(flat[k]) { return Err("encode patch"), args', order; }
      var patch := FlatOf(flat);
      YieldsConcat(e, args', s, order, patch);
      ghost var wrapped := DConcat(e, |args'| + 1);
      ConsecutiveStep(expr, wrapped, |args|, |args'|);
      WrappedText(e, wrapped);
      expr, e := [UOpen] + expr + [UBars, UParam(|args'| + 1), UJson, UClose], wrapped;
      args' := args' + [JsonV(JObj(patch))];
      assert patch == FlatOf(s);
    } else {
      assert FlatOf(s) == map[];
    }
    forall k | k in s ensures Encodable(s[k]) {
      if !IsDotted(k) { assert k in flat; }
    }
    expr, args' := UnsetSQL(expr, args', unset, e, s, order, |args|);
    r := Ok(expr);
  }

  lemma WrappedText(e: DocExpr, w: DocExpr)
    requires w != DDoc && w.e == e
    ensures TextOf(w) == [if w.DSet? then USet else UOpen] + TextOf(e) + Tail(w)
    ensures w.DConcat? ==> Tail(w) == [UBars, UParam(w.p), UJson, UClose]
    ensures w.DDelPath? ==> Tail(w) == [UHash, ULit(w.path), UClose]
    ensures w.DDelKeys? ==> Tail(w) == [UMinus, UParam(w.p), UTexts, UClose]
    ensures w.DSet? ==> Tail(w) == [UComma, ULit(w.path), UComma, UParam(w.p), UJson, UComma, UTrue, UClose]
  {
  }

  /** The loop has folded the dotted keys among `done` into the text. */
  ghost predicate Folded(expr: seq<UToken>, e: DocExpr, args: seq<V>, args': seq<V>, s: map<string, Val>, order: seq<string>, done: set<string>) {
    && args <= args' && expr == TextOf(e) && multiset(order) == multiset(set k | k in done && IsDotted(k))
    && Yields(e, args', s, order, map[], []) && Consecutive(expr, |args|, |args'|)
  }

  lemma FoldStart(args: seq<V>, s: map<string, Val>)
    ensures Folded([UDoc], DDoc, args, args, s, [], {})
  {
    YieldsDoc(args, s);
    NoParams([UDoc]);
    assert (set k | k in {} && IsDotted(k)) == {};
    assert seq(0, i => |args| + 1 + i) == [];
  }

  lemma FoldStep(expr: seq<UToken>, e: DocExpr, args: seq<V>, args': seq<V>, s: map<string, Val>, order: seq<string>, done: set<string>, k: string)
    requires Folded(expr, e, args, args', s, order, done) && k in s && k !in done && IsDotted(k) && PlainPath(k)
    ensures var p, w := |args'| + 1, DSet(e, PathLit(Split(k, '.')), |args'| + 1);
      Folded([USet] + expr + [UComma, ULit(w.path), UComma, UParam(p), UJson, UComma, UTrue, UClose], w, args, args' + [JsonV(Encode(s[k]))], s, order + [k], done + {k})
  {
    hide Yields, Split, PathLit, PlainPath, Consecutive, Encode, TextOf, Tail;
    YieldsSet(e, args', s, order, k);
    var w := DSet(e, PathLit(Split(k, '.')), |args'| + 1);
    ConsecutiveStep(expr, w, |args|, |args'|);
    WrappedText(e, w);
    assert (set x | x in done + {k} && IsDotted(x)) == (set x | x in done && IsDotted(x)) + {k};
  }

  lemma FoldSkip(expr: seq<UToken>, e: DocExpr, args: seq<V>, args': seq<V>, s: map<string, Val>, order: seq<string>, done: set<string>, k: string)
    requires Folded(expr, e, args, args', s, order, done) && !IsDotted(k)
    ensures Folded(expr, e, args, args', s, order, done + {k})
  {
    assert (set x | x in done + {k} && IsDotted(x)) == (set x | x in done && IsDotted(x));
  }

  lemma FoldEnd(expr: seq<UToken>, e: DocExpr, args: seq<V>, args': seq<V>, s: map<string, Val>, order: seq<string>)
    requires Folded(expr, e, args, args', s, order, s.Keys)
    ensures args <= args' && expr == TextOf(e) && Lists(order, s) && Yields(e, args', s, order, map[], []) && Consecutive(expr, |args|, |args'|)
  {
    assert DottedKeys(s) == set k | k in s.Keys && IsDotted(k);
  }

  lemma FoldKeeps(expr: seq<UToken>, e: DocExpr, args: seq<V>, args': seq<V>, s: map<string, Val>, order: seq<string>, done: set<string>)
    requires Folded(expr, e, args, args', s, order, done)
    ensures args <= args'
  {
  }

  /** The loop over the set map, in whatever order it is iterated: dotted keys are folded into
      the expression as they come, top-level keys are put aside. */
  method DottedSQL(s: map<string, Val>, args: seq<V>)
    returns (ok: bool, expr: seq<UToken>, flat: map<string, Val>, args': seq<V>, ghost e: DocExpr, ghost order: seq<string>)
    requires forall k :: k in s ==> PlainPath(k)
    ensures args <= args'
    ensures ok <==> forall k :: k in s && IsDotted(k) ==> Encodable(s[k])
    ensures ok ==> (forall k :: k in flat <==> k in s && !IsDotted(k)) && (forall k :: k in flat ==> flat[k] == s[k])
    ensures ok ==> expr == TextOf(e) && Lists(order, s) && Yields(e, args', s, order, map[], []) && Consecutive(expr, |args|, |args'|)
  {
    hide Encode, Encodable, Split, PathLit, PlainPath, Folded;
    expr, flat, args', ok := [UDoc], map[], args, true;
    e, order := DDoc, [];
    var rest := s.Keys;
    ghost var done: set<string> := {};
    FoldStart(args, s);
    while rest != {}
      invariant done + rest == s.Keys && done !! rest && ok
      invariant forall k :: k in flat <==> k in done && !IsDotted(k)
      invariant forall k :: k in flat ==> flat[k] == s[k]
      invariant forall k :: k in done && IsDotted(k) ==> Encodable(s[k])
      invariant Folded(expr, e, args, args', s, order, done)
      decreases |rest|
    {
      var k :| k in rest;
      FoldKeeps(expr, e, args, args', s, order, done);
      if IsDotted(k) {
        if !Encodable(s[k]) { return false, expr, flat, args', e, order; }
        var lit := PathLit(Split(k, '.'));
        FoldStep(expr, e, args, args', s, order, done, k);
        expr := [USet] + expr + [UComma, ULit(lit), UComma, UParam(|args'| + 1), UJson, UComma, UTrue, UClose];
        e, order := DSet(e, lit, |args'| + 1), order + [k];
        args' := args' + [JsonV(Encode(s[k]))];
      } else {
        FoldSkip(expr, e, args, args', s, order, done, k);
        flat := flat[k := s[k]];
      }
      done, rest := done + {k}, rest - {k};
    }
    assert done == s.Keys;
    FoldEnd(expr, e, args, args', s, order);
  }

  /** Dotted unsets as they come, the others in one array at the end. */
  method UnsetSQL(expr: seq<UToken>, args: seq<V>, unset: seq<string>, ghost e: DocExpr, ghost s: map<string, Val>, ghost order: seq<string>, ghost first: nat)
    returns (r: seq<UToken>, args': seq<V>)
    requires expr == TextOf(e) && Yields(e, args, s, order, FlatOf(s), []) && forall k :: k in unset ==> PlainPath(k)
    requires Consecutive(expr, first, |args|)
    ensures args <= args' && Consecutive(r, first, |args'|) && Computes(r, args', s, order, unset)
  {
    hide Yields, Split, PathLit, PlainPath, Consecutive, Computes, TextOf, Tail;
    r, args' := expr, args;
    var flatUnset: seq<string> := [];
    ghost var f := e;
    assert unset[..0] == [];
    for i := 0 to |unset|
      invariant flatUnset == FlatKeys(unset[..i])
      invariant r == TextOf(f) && Yields(f, args', s, order, FlatOf(s), unset[..i]) && Consecutive(r, first, |args'|)
    {
      var k := unset[i];
      assert unset[..i + 1] == unset[..i] + [k] && unset[..i + 1][..i] == unset[..i];
      if IsDotted(k) {
        var lit := PathLit(Split(k, '.'));
        YieldsDelPath(f, args', s, order, FlatOf(s), unset[..i], k);
        ghost var wrapped := DDelPath(f, lit);
        ConsecutiveStep(r, wrapped, first, |args'|);
        WrappedText(f, wrapped);
        r, f := [UOpen] + r + [UHash, ULit(lit), UClose], wrapped;
      } else {
        YieldsLater(f, args', s, order, FlatOf(s), unset[..i], k);
        flatUnset := flatUnset + [k];
      }
    }
    assert unset[..|unset|] == unset;
    YieldsOutcome(f, args', s, order, unset);
    if flatUnset != [] {
      ghost var wrapped := DDelKeys(f, |args'| + 1);
      ConsecutiveStep(r, wrapped, first, |args'|);
      WrappedText(f, wrapped);
      r := [UOpen] + r + [UMinus, UParam(|args'| + 1), UTexts, UClose];
      args' := args' + [Texts(flatUnset)];
    }
  }
}
