/** The SQL text of a translated filter: its precedence, its placeholders, and the
    `whereBuilder` that assembles it while binding arguments. */
module FilterText {
  import opened Base
  import opened Ordering
  import opened Sql
  import opened SqlText
  import opened Filter

  // ----- placeholders -----

  /** The placeholder numbers of an expression in the order they appear in the text. */
  function ParamsOf(e: Expr): seq<nat>
    decreases e, 0
  {
    match e
    case Param(i) => [i]
    case Group(e1) => ParamsOf(e1)
    case Cast(e1, _) => ParamsOf(e1)
    case Infix(_, l, r) => ParamsOf(l) + ParamsOf(r)
    case Compare(_, l, r) => ParamsOf(l) + ParamsOf(r)
    case EqAny(l, arr) => ParamsOf(l) + ParamsOf(arr)
    case IsNull(e1, _) => ParamsOf(e1)
    case Distinct(l, r) => ParamsOf(l) + ParamsOf(r)
    case Not(e1) => ParamsOf(e1)
    case And(es) => ParamsAll(es)
    case Or(es) => ParamsAll(es)
    case _ => []
  }

  function ParamsAll(es: seq<Expr>): seq<nat>
    decreases es, 1
  {
    if es == [] then [] else ParamsOf(es[0]) + ParamsAll(es[1..])
  }

  /** n+1, n+2, ..., n+count. */
  function Range(n: nat, count: nat): seq<nat> {
    seq(count, i => n + 1 + i)
  }

  lemma {:induction false} ParamsAppend(a: seq<Expr>, b: seq<Expr>)
    ensures ParamsAll(a + b) == ParamsAll(a) + ParamsAll(b)
  {
    if a == [] {
      assert a + b == b;
    } else {
      assert (a + b)[1..] == a[1..] + b;
      ParamsAppend(a[1..], b);
    }
  }

  lemma {:induction false} CanonicalAppend(a: seq<Expr>, b: seq<Expr>)
    ensures CanonicalAll(a + b, 2) == (CanonicalAll(a, 2) && CanonicalAll(b, 2))
  {
    if a == [] {
      assert a + b == b;
    } else {
      assert (a + b)[1..] == a[1..] + b;
      CanonicalAppend(a[1..], b);
    }
  }

  // ----- what the emitted parts look like -----

  /** Some operator of every operator map is more than `$options`, which alone emits nothing. */
  predicate CompleteField(v: Val) {
    v.VMap? && IsOpMap(v.f) ==> exists op :: op in v.f.fields && op != "$options"
  }

  ghost predicate Complete(f: Doc)
    decreases f, 0
  {
    forall k :: k in f.fields ==> CompleteKey(f, k)
  }

  ghost predicate CompleteKey(f: Doc, k: string)
    requires k in f.fields
    decreases f, 0, k
  {
    var v := f.fields[k];
    if k == "$or" || k == "$and" then
      IsFilterList(v) ==> forall i :: 0 <= i < SubCount(v) ==> Complete(Sub(v, i))
    else CompleteField(v)
  }

  /** Every part binds at least as tightly as NOT (or is an empty fragment), the parts need
      no more parentheses exactly when the filter is complete, and the placeholders are the
      next consecutive numbers, one per argument, in order. */
  ghost predicate Rendered(out: Out, n: nat, complete: bool) {
    && (forall i :: 0 <= i < |out.parts| ==> out.parts[i] == Blank || Level(out.parts[i]) >= 2)
    && (CanonicalAll(out.parts, 2) <==> complete)
    && ParamsAll(out.parts) == Range(n, |out.args|)
  }

  lemma AppendRendered(a: Out, b: Out, n: nat, c1: bool, c2: bool)
    requires Rendered(a, n, c1) && Rendered(b, n + |a.args|, c2)
    ensures Rendered(Out(a.parts + b.parts, a.args + b.args), n, c1 && c2)
  {
    CanonicalAppend(a.parts, b.parts);
    ParamsAppend(a.parts, b.parts);
    assert Range(n, |a.args| + |b.args|) == Range(n, |a.args|) + Range(n + |a.args|, |b.args|);
  }

  lemma SingleRendered(e: Expr, args: seq<V>, n: nat, complete: bool)
    requires Level(e) >= 2 && Canonical(e) == complete && ParamsOf(e) == Range(n, |args|)
    ensures Rendered(Out([e], args), n, complete)
  {
    var parts := [e];
    assert parts[1..] == [];
    assert CanonicalAll(parts[1..], 2) && ParamsAll(parts[1..]) == [];
    assert CanonicalAll(parts, 2) == (Canonical(parts[0]) && Level(parts[0]) >= 2 && CanonicalAll(parts[1..], 2));
    assert ParamsAll(parts) == ParamsOf(parts[0]) + ParamsAll(parts[1..]);
  }

  ghost predicate IsOperand(x: Expr) {
    Canonical(x) && Level(x) >= 5 && ParamsOf(x) == []
  }

  /** Extraction expressions: at most a cast or an operator deep, and no placeholders. */
  lemma ExtractionShape(path: string)
    ensures IsOperand(TextExpr(path)) && IsOperand(JsonExpr(path))
    ensures IsOperand(NumExpr(path)) && IsOperand(TimeExpr(path))
  {
    var t, j := TextExpr(path), JsonExpr(path);
    assert t.Infix? && t.l == DocCol && t.r.Str? && j.Infix? && j.l == DocCol && j.r.Str?;
    assert IsOperand(t) && IsOperand(j);
    assert IsOperand(Group(t));
  }

  lemma OrPairShape(a: Expr, b: Expr)
    requires Canonical(a) && Canonical(b) && Level(a) >= 1 && Level(b) >= 1
    ensures Canonical(Group(Or([a, b]))) && ParamsOf(Group(Or([a, b]))) == ParamsOf(a) + ParamsOf(b)
  {
    var es, last := [a, b], [b];
    assert es[1..] == last && last[1..] == [];
    assert CanonicalAll(last[1..], 1) && ParamsAll(last[1..]) == [];
    assert CanonicalAll(last, 1) && ParamsAll(last) == ParamsOf(b);
    assert CanonicalAll(es, 1) && ParamsAll(es) == ParamsOf(a) + ParamsAll(last);
    assert Canonical(Or(es)) && ParamsOf(Or(es)) == ParamsAll(es);
  }

  /** A condition that binds exactly the next placeholder, and one that binds none. */
  ghost predicate BindsOne(e: Expr, n: nat) {
    Canonical(e) && Level(e) >= 2 && ParamsOf(e) == [n + 1]
  }

  ghost predicate BindsNone(e: Expr) {
    Canonical(e) && Level(e) >= 2 && ParamsOf(e) == []
  }

  lemma ComparisonShape(c: Cmp, x: Expr, n: nat)
    requires IsOperand(x)
    ensures BindsOne(Compare(c, x, Param(n + 1)), n) && BindsOne(Distinct(x, Param(n + 1)), n)
  {
    assert Canonical(Param(n + 1)) && ParamsOf(Param(n + 1)) == [n + 1];
  }

  lemma MembershipShape(x: Expr, n: nat)
    requires IsOperand(x)
    ensures BindsOne(EqAny(x, Param(n + 1)), n)
    ensures BindsOne(Not(Group(EqAny(x, Param(n + 1)))), n)
    ensures BindsOne(NotAny(x, Param(n + 1)), n)
  {
    var p := Param(n + 1);
    assert Canonical(p) && ParamsOf(p) == [n + 1];
    var any := EqAny(x, p);
    assert BindsOne(any, n);
    assert BindsOne(Group(any), n);
    assert BindsOne(Not(Group(any)), n);
    OrPairShape(IsNull(x, true), Not(Group(any)));
  }

  lemma PresenceShape(path: string, n: nat)
    ensures BindsNone(AbsentOrNull(path)) && BindsNone(Not(AbsentOrNull(path)))
    ensures BindsNone(IsNull(JsonExpr(path), true)) && BindsNone(IsNull(JsonExpr(path), false))
    ensures BindsOne(Infix(Contains, JsonExpr(path), Cast(Param(n + 1), Jsonb)), n)
  {
    hide TextExpr, JsonExpr, NumExpr, TimeExpr;
    ExtractionShape(path);
    var j, nul, p := JsonExpr(path), Cast(Str("null"), Jsonb), Param(n + 1);
    assert Canonical(nul) && Level(nul) == 6 && ParamsOf(nul) == [];
    assert Canonical(Compare(Eq, j, nul)) && ParamsOf(Compare(Eq, j, nul)) == [];
    OrPairShape(IsNull(j, true), Compare(Eq, j, nul));
    assert Canonical(p) && ParamsOf(p) == [n + 1];
    assert Canonical(Cast(p, Jsonb)) && ParamsOf(Cast(p, Jsonb)) == [n + 1];
  }

  lemma AtomRendered(e: Expr, args: seq<V>, n: nat)
    requires if args == [] then BindsNone(e) else |args| == 1 && BindsOne(e, n)
    ensures Rendered(Out([e], args), n, true)
  {
    assert Range(n, 1) == [n + 1] && Range(n, 0) == [];
    SingleRendered(e, args, n, true);
  }

  lemma DocOpShape(path: string, op: Operator, v: Val, n: nat)
    requires TranslateDocOp(path, op, v, n).Ok?
    ensures |TranslateDocOp(path, op, v, n).value.parts| == 1
    ensures Rendered(TranslateDocOp(path, op, v, n).value, n, true)
  {
    hide TextExpr, JsonExpr, NumExpr, TimeExpr, AbsentOrNull, NotAny, ParamsOf, Canonical, Level, ParamsAll, CanonicalAll, Range;
    ExtractionShape(path);
    var out := TranslateDocOp(path, op, v, n).value;
    var e := out.parts[0];
    match op {
      case OCmp(c) => ComparisonShape(c, TypedExpr(path, v).value.0, n);
      case OIn => MembershipShape(InList(path, v).value.0, n);
      case ONin => MembershipShape(InList(path, v).value.0, n);
      case OExists => PresenceShape(path, n);
      case OContains => PresenceShape(path, n);
      case _ =>
        if v.VNil? { PresenceShape(path, n); } else { ComparisonShape(Eq, TypedExpr(path, v).value.0, n); }
    }
    AtomRendered(e, out.args, n);
  }

  lemma IdOpShape(op: Operator, v: Val, n: nat)
    requires TranslateId(op, v, n).Ok?
    ensures Rendered(TranslateId(op, v, n).value, n, true)
  {
    hide ParamsAll, CanonicalAll, Range;
    assert IsOperand(IdCol);
    MembershipShape(IdCol, n);
    var out := TranslateId(op, v, n).value;
    if out.parts[0].Compare? {
      ComparisonShape(out.parts[0].c, IdCol, n);
    }
    AtomRendered(out.parts[0], out.args, n);
  }

  lemma EntryShape(path: string, ops: Doc, op: string, n: nat)
    requires op in ops.fields && TranslateEntry(path, ops, op, n).Ok?
    ensures Rendered(TranslateEntry(path, ops, op, n).value, n, true)
    ensures |TranslateEntry(path, ops, op, n).value.parts| == if op == "$options" then 0 else 1
  {
    hide TranslateId, TranslateDocOp, TextExpr, OperatorOf;
    if op == "$options" {
      assert Range(n, 0) == [];
    } else if op == "$regex" {
      ExtractionShape(path);
      var out := TranslateEntry(path, ops, op, n).value;
      assert Canonical(Param(n + 1)) && ParamsOf(Param(n + 1)) == [n + 1];
      assert BindsOne(out.parts[0], n);
      AtomRendered(out.parts[0], out.args, n);
    } else {
      OpShape(path, OperatorOf(op).value, ops.fields[op], n);
    }
  }

  lemma OpShape(path: string, op: Operator, v: Val, n: nat)
    requires TranslateOp(path, op, v, n).Ok?
    ensures Rendered(TranslateOp(path, op, v, n).value, n, true)
    ensures |TranslateOp(path, op, v, n).value.parts| == 1
  {
    if IsId(path) { IdOpShape(op, v, n); } else { DocOpShape(path, op, v, n); }
  }

  lemma {:induction false} EntriesShape(path: string, ops: Doc, keys: seq<string>, n: nat)
    requires forall k :: k in keys ==> k in ops.fields
    requires TranslateEntries(path, ops, keys, n).Ok?
    ensures Rendered(TranslateEntries(path, ops, keys, n).value, n, true)
    ensures TranslateEntries(path, ops, keys, n).value.parts == [] <==> forall k :: k in keys ==> k == "$options"
  {
    hide TranslateEntry;
    if keys == [] {
      assert Range(n, 0) == [];
    } else {
      EntryShape(path, ops, keys[0], n);
      var first := TranslateEntry(path, ops, keys[0], n).value;
      EntriesShape(path, ops, keys[1..], n + |first.args|);
      AppendRendered(first, TranslateEntries(path, ops, keys[1..], n + |first.args|).value, n, true, true);
      assert forall k :: k in keys <==> k == keys[0] || k in keys[1..];
    }
  }

  lemma FieldShape(path: string, v: Val, n: nat)
    requires TranslateField(path, v, n).Ok?
    ensures Rendered(TranslateField(path, v, n).value, n, CompleteField(v))
    ensures TranslateField(path, v, n).value.parts != []
  {
    hide TranslateOp, TranslateEntries;
    if v.VMap? && IsOpMap(v.f) {
      var keys := SortedKeys(v.f.fields.Keys);
      SortedKeysFacts(v.f.fields.Keys);
      EntriesShape(path, v.f, keys, n);
      var out := TranslateEntries(path, v.f, keys, n).value;
      if out.parts == [] {
        assert ParamsAll([Blank]) == ParamsOf(Blank) + ParamsAll([Blank][1..]);
        assert !CanonicalAll([Blank], 2);
      }
    } else {
      OpShape(path, OEq, v, n);
    }
  }

  lemma GroupedShape(out: Out, n: nat, complete: bool, anyOf: bool)
    requires Rendered(out, n, complete) && out.parts != []
    requires anyOf ==> forall i :: 0 <= i < |out.parts| ==> out.parts[i].Group?
    ensures Rendered(Out([Group(if anyOf then MkOr(out.parts) else MkAnd(out.parts))], out.args), n, complete)
  {
    var es := out.parts;
    var e := if anyOf then MkOr(es) else MkAnd(es);
    if |es| == 1 {
      assert es[1..] == [];
      assert CanonicalAll(es[1..], 2) && ParamsAll(es[1..]) == [];
      assert CanonicalAll(es, 2) == (Canonical(es[0]) && Level(es[0]) >= 2);
      assert ParamsAll(es) == ParamsOf(es[0]) + [];
    } else if anyOf {
      GroupsCanonical(es);
    }
    SingleRendered(Group(e), out.args, n, complete);
  }

  lemma {:induction false} GroupsCanonical(es: seq<Expr>)
    requires forall i :: 0 <= i < |es| ==> es[i].Group?
    ensures CanonicalAll(es, 1) == CanonicalAll(es, 2)
  {
    if es != [] {
      GroupsCanonical(es[1..]);
    }
  }

  ghost predicate CompleteFrom(v: Val, i: nat)
    requires IsFilterList(v)
  {
    forall j :: i <= j < SubCount(v) ==> Complete(Sub(v, j))
  }

  lemma SubsUnfold(v: Val, i: nat, n: nat)
    requires IsFilterList(v) && i < SubCount(v) && TranslateSubs(v, i, n).Ok?
    ensures TranslateFilter(Sub(v, i), n).Ok?
    ensures CompleteFrom(v, i) == (Complete(Sub(v, i)) && CompleteFrom(v, i + 1))
    ensures var out := TranslateFilter(Sub(v, i), n).value;
      && TranslateSubs(v, i + 1, n + |out.args|).Ok?
      && var rest := TranslateSubs(v, i + 1, n + |out.args|).value;
         TranslateSubs(v, i, n).value == Out([Group(MkAnd(out.parts))] + rest.parts, out.args + rest.args)
  {
    hide TranslateFilter, Complete;
  }

  lemma {:induction false} SubsShape(v: Val, i: nat, n: nat)
    requires IsFilterList(v) && i <= SubCount(v) && TranslateSubs(v, i, n).Ok?
    ensures var out := TranslateSubs(v, i, n).value;
      && |out.parts| == SubCount(v) - i
      && (forall j :: 0 <= j < |out.parts| ==> out.parts[j].Group?)
      && Rendered(out, n, CompleteFrom(v, i))
    decreases v, SubCount(v) - i
  {
    hide TranslateFilter, Complete, TranslateSubs, CompleteFrom, Rendered, MkAnd, ParamsAll, CanonicalAll, Range;
    if i == SubCount(v) {
      NoSubsShape(v, n);
    } else {
      SubsUnfold(v, i, n);
      var out := TranslateFilter(Sub(v, i), n).value;
      var first := Out([Group(MkAnd(out.parts))], out.args);
      FilterShape(Sub(v, i), n);
      GroupedShape(out, n, Complete(Sub(v, i)), false);
      SubsShape(v, i + 1, n + |out.args|);
      var rest := TranslateSubs(v, i + 1, n + |out.args|).value;
      AppendRendered(first, rest, n, Complete(Sub(v, i)), CompleteFrom(v, i + 1));
    }
  }

  lemma NoSubsShape(v: Val, n: nat)
    requires IsFilterList(v)
    ensures TranslateSubs(v, SubCount(v), n) == Ok(Out([], []))
    ensures Rendered(Out([], []), n, CompleteFrom(v, SubCount(v)))
  {
    assert Range(n, 0) == [];
  }

  lemma {:induction false} KeyShape(f: Doc, k: string, n: nat)
    requires k in f.fields && TranslateKey(f, k, n).Ok?
    ensures Rendered(TranslateKey(f, k, n).value, n, CompleteKey(f, k))
    ensures TranslateKey(f, k, n).value.parts != []
    decreases f, 0, 0
  {
    hide TranslateField, Complete, CompleteField, TranslateSubs;
    var v := f.fields[k];
    if k == "$or" || k == "$and" {
      SubsShape(v, 0, n);
      GroupedShape(TranslateSubs(v, 0, n).value, n, CompleteKey(f, k), k == "$or");
    } else {
      FieldShape(k, v, n);
    }
  }

  lemma {:induction false} KeysShape(f: Doc, keys: seq<string>, n: nat)
    requires forall k :: k in keys ==> k in f.fields
    requires TranslateKeys(f, keys, n).Ok?
    ensures Rendered(TranslateKeys(f, keys, n).value, n, forall k :: k in keys ==> CompleteKey(f, k))
    ensures keys != [] ==> TranslateKeys(f, keys, n).value.parts != []
    decreases f, 0, |keys|, 1
  {
    hide TranslateKey, CompleteKey;
    if keys == [] {
      assert Range(n, 0) == [];
    } else {
      KeyShape(f, keys[0], n);
      var first := TranslateKey(f, keys[0], n).value;
      KeysShape(f, keys[1..], n + |first.args|);
      var c := forall k :: k in keys[1..] ==> CompleteKey(f, k);
      AppendRendered(first, TranslateKeys(f, keys[1..], n + |first.args|).value, n, CompleteKey(f, keys[0]), c);
      assert forall k :: k in keys <==> k == keys[0] || k in keys[1..];
      assert (CompleteKey(f, keys[0]) && c) == (forall k :: k in keys ==> CompleteKey(f, k));
    }
  }

  /** The placeholders of a translated filter are $n+1 .. $n+m in text order, one for each of
      its m arguments; and its parts are properly parenthesised exactly when no operator map
      consists of `$options` alone. */
  lemma {:induction false} FilterShape(f: Doc, n: nat)
    requires TranslateFilter(f, n).Ok?
    ensures TranslateFilter(f, n).value.parts != []
    ensures Rendered(TranslateFilter(f, n).value, n, Complete(f))
    decreases f, 1
  {
    hide TranslateKeys, CompleteKey;
    if f.fields == map[] {
      assert Range(n, 0) == [];
      SingleRendered(True, [], n, true);
    } else {
      var keys := SortedKeys(f.fields.Keys);
      SortedKeysFacts(f.fields.Keys);
      var k :| k in f.fields;
      assert k in keys;
      KeysShape(f, keys, n);
      assert Complete(f) <==> forall k :: k in keys ==> CompleteKey(f, k);
    }
  }

  // ----- reading the text back -----

  lemma {:induction false} RenderAppend(a: seq<Expr>, b: seq<Expr>, sep: Token)
    requires a != [] && b != []
    ensures RenderList(a + b, sep) == RenderList(a, sep) + [sep] + RenderList(b, sep)
  {
    assert (a + b)[1..] == a[1..] + b;
    if |a| == 1 {
      assert a[1..] + b == b;
    } else {
      RenderAppend(a[1..], b, sep);
    }
  }

  /** MAIN RESULT on text.  Under PostgreSQL's precedence the emitted text reads back as the
      intended condition, and so does the text with `AND extra` appended, as `Distinct`
      appends it: no OR is ever exposed. */
  lemma TextReadsBack(f: Doc, n: nat, extra: Expr)
    requires TranslateFilter(f, n).Ok? && Complete(f)
    requires Canonical(extra) && Level(extra) >= 2
    ensures var parts := TranslateFilter(f, n).value.parts;
      && Parse(0, Render(MkAnd(parts))) == Some((MkAnd(parts), []))
      && Parse(0, Render(MkAnd(parts)) + [TAnd] + Render(extra)) == Some((And(parts + [extra]), []))
  {
    hide TranslateFilter, Complete, Parse;
    var parts := TranslateFilter(f, n).value.parts;
    FilterShape(f, n);
    assert Level(parts[0]) >= 2 && Canonical(parts[0]);
    ReadsBack(0, MkAnd(parts), []);
    assert Render(MkAnd(parts)) + [] == Render(MkAnd(parts));
    var more := parts + [extra];
    CanonicalAppend(parts, [extra]);
    assert CanonicalAll([extra][1..], 2);
    ReadsBack(0, And(more), []);
    RenderAppend(parts, [extra], TAnd);
    assert Render(And(more)) + [] == Render(And(more));
  }
}
