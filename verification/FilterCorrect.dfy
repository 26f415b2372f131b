/** The translated filter selects exactly the documents the conventions describe. */
module FilterCorrect {
  import opened Base
  import opened Ordering
  import opened Sql
  import opened Filter

  /** `v` is what a condition evaluates to: an error exactly when a cast is undefined, and
      otherwise TRUE exactly when the condition is met (FALSE or NULL when it is not). */
  ghost predicate Verdict(v: V, casts: bool, met: bool) {
    && (v.Fault? || v.Null? || v.Bool?)
    && (v.Fault? <==> !casts)
    && (casts ==> (v == Bool(true) <==> met))
  }

  /** The statement's argument list carries `args` from position `n` on. */
  ghost predicate ArgsAt(all: seq<V>, n: nat, args: seq<V>) {
    n + |args| <= |all| && all[n..n + |args|] == args
  }

  lemma ArgsAtSplit(all: seq<V>, n: nat, a: seq<V>, b: seq<V>)
    requires ArgsAt(all, n, a + b)
    ensures ArgsAt(all, n, a) && ArgsAt(all, n + |a|, b)
  {
    assert all[n..n + |a|] == (a + b)[..|a|];
    assert all[n + |a|..n + |a| + |b|] == (a + b)[|a|..];
  }

  lemma BoundArg(pg: Pg, row: Row, all: seq<V>, n: nat, arg: V)
    requires ArgsAt(all, n, [arg])
    ensures Eval(pg, row, all, Param(n + 1)) == arg
  {
    assert all[n] == all[n..n + 1][0];
  }

  // ----- lists of conditions -----

  lemma {:induction false} ConjAppend(pg: Pg, row: Row, all: seq<V>, a: seq<Expr>, b: seq<Expr>)
    ensures Conj(pg, row, all, a + b) == AndV(Conj(pg, row, all, a), Conj(pg, row, all, b))
  {
    if a == [] {
      assert a + b == b;
      ConjIsBool(pg, row, all, b);
    } else {
      assert (a + b)[1..] == a[1..] + b;
      ConjAppend(pg, row, all, a[1..], b);
    }
  }

  lemma {:induction false} ConjIsBool(pg: Pg, row: Row, all: seq<V>, es: seq<Expr>)
    ensures Conj(pg, row, all, es).Bool? || Conj(pg, row, all, es).Null? || Conj(pg, row, all, es).Fault?
  {
  }

  /** A list of conditions met together, and the text that joins them. */
  lemma MkAndVerdict(pg: Pg, row: Row, all: seq<V>, parts: seq<Expr>, casts: bool, met: bool)
    requires parts != [] && Verdict(Conj(pg, row, all, parts), casts, met)
    requires |parts| == 1 ==> IsCondition(Eval(pg, row, all, parts[0]))
    ensures Verdict(Eval(pg, row, all, MkAnd(parts)), casts, met)
  {
    if |parts| == 1 {
      assert parts[1..] == [];
      assert Conj(pg, row, all, parts[1..]) == Bool(true);
      assert Conj(pg, row, all, parts) == AndV(Eval(pg, row, all, parts[0]), Bool(true));
    }
  }

  predicate IsCondition(v: V) {
    v.Bool? || v.Null? || v.Fault?
  }

  // ----- single operators, on values -----

  /** The value on the left of a typed comparison. */
  function OperandV(pg: Pg, field: Option<Json>, v: Val): V {
    var t := TextV(AsText(pg, field));
    match v
    case VStr(_) => t
    case VBool(_) => t
    case VTime(_, _) => CastV(pg, t, Timestamptz)
    case _ => CastV(pg, t, Numeric)
  }

  lemma EqualVerdict(pg: Pg, field: Option<Json>, v: Val, arg: V)
    requires TypedExpr([], v).Ok? && arg == TypedExpr([], v).value.1
    ensures Verdict(CompareV(pg, Eq, OperandV(pg, field, v), arg), CastOk(pg, field, v), EqualTo(pg, field, v))
    ensures Verdict(DistinctV(pg, OperandV(pg, field, v), arg), CastOk(pg, field, v), !EqualTo(pg, field, v))
  {
  }

  lemma OrderVerdict(pg: Pg, field: Option<Json>, c: Cmp, v: Val, arg: V)
    requires TypedExpr([], v).Ok? && arg == TypedExpr([], v).value.1
    requires !c.Eq? && !c.Ne?
    ensures Verdict(CompareV(pg, c, OperandV(pg, field, v), arg), CastOk(pg, field, v), OrderedAs(pg, field, c, v))
  {
  }

  // ----- single operators, on expressions -----

  lemma OrPair(pg: Pg, row: Row, all: seq<V>, a: Expr, b: Expr)
    ensures Eval(pg, row, all, Group(Or([a, b]))) == OrV(Eval(pg, row, all, a), OrV(Eval(pg, row, all, b), Bool(false)))
  {
    hide OrV;
    PairDisj(pg, row, all, a, b);
    assert Eval(pg, row, all, Or([a, b])) == Disj(pg, row, all, [a, b]);
    assert Eval(pg, row, all, Group(Or([a, b]))) == Eval(pg, row, all, Or([a, b]));
  }

  lemma PairDisj(pg: Pg, row: Row, all: seq<V>, a: Expr, b: Expr)
    ensures Disj(pg, row, all, [a, b]) == OrV(Eval(pg, row, all, a), OrV(Eval(pg, row, all, b), Bool(false)))
  {
    hide Eval, OrV;
    var parts, last := [a, b], [b];
    assert parts[1..] == last && last[1..] == [];
    assert Disj(pg, row, all, last[1..]) == Bool(false);
    assert Disj(pg, row, all, last) == OrV(Eval(pg, row, all, b), Bool(false));
    assert Disj(pg, row, all, parts) == OrV(Eval(pg, row, all, a), Disj(pg, row, all, last));
  }

  lemma CastText(pg: Pg, row: Row, all: seq<V>, e: Expr, t: Type)
    ensures Eval(pg, row, all, Cast(Group(e), t)) == CastV(pg, Eval(pg, row, all, e), t)
  {
    assert Eval(pg, row, all, Group(e)) == Eval(pg, row, all, e);
  }

  /** What the left operand of a typed comparison evaluates to. */
  lemma TypedOperand(pg: Pg, row: Row, all: seq<V>, path: string, v: Val)
    requires PlainPath(path) && !IsId(path) && TypedExpr(path, v).Ok?
    ensures Eval(pg, row, all, TypedExpr(path, v).value.0) == OperandV(pg, Field(row, path), v)
    ensures TypedExpr([], v).Ok? && TypedExpr(path, v).value.1 == TypedExpr([], v).value.1
  {
    ExtractionReadsField(pg, row, all, path);
    CastText(pg, row, all, TextExpr(path), Numeric);
    CastText(pg, row, all, TextExpr(path), Timestamptz);
  }

  lemma NullTest(pg: Pg, row: Row, all: seq<V>, j: Expr, field: Option<Json>)
    requires Eval(pg, row, all, j) == JsonbV(field)
    ensures Eval(pg, row, all, Compare(Eq, j, Cast(Str("null"), Jsonb))) == if field.None? then Null else Bool(field.value == JNull)
  {
    assert Eval(pg, row, all, Cast(Str("null"), Jsonb)) == JsonV(JNull);
  }

  /** `{f: nil}` is two-valued: TRUE on absent and on JSON null, FALSE otherwise. */
  lemma AbsentOrNullCorrect(pg: Pg, row: Row, all: seq<V>, path: string)
    requires PlainPath(path) && !IsId(path)
    ensures Eval(pg, row, all, AbsentOrNull(path)) == Bool(EqualTo(pg, Field(row, path), VNil))
  {
    var j := JsonExpr(path);
    assert Eval(pg, row, all, j) == JsonbV(Field(row, path)) by { ExtractionReadsField(pg, row, all, path); }
    NullTest(pg, row, all, j, Field(row, path));
    OrPair(pg, row, all, IsNull(j, true), Compare(Eq, j, Cast(Str("null"), Jsonb)));
  }

  lemma NumberList(es: seq<Val>, ns: seq<real>, pg: Pg, field: Option<Json>)
    requires |es| == |ns| && forall i :: 0 <= i < |es| ==> IsNumber(es[i]) && ns[i] == NumberOf(es[i])
    ensures Among(pg, field, es) <==> AsNum(pg, field).Some? && AsNum(pg, field).value in ns
  {
    var t := AsNum(pg, field);
    if t.Some? && t.value in ns {
      var i :| 0 <= i < |ns| && ns[i] == t.value;
      assert EqualTo(pg, field, es[i]);
    }
  }

  lemma TextList(es: seq<Val>, ss: seq<string>, pg: Pg, field: Option<Json>)
    requires |es| == |ss| && forall i :: 0 <= i < |es| ==> es[i] == VStr(ss[i])
    ensures Among(pg, field, es) <==> AsText(pg, field).Some? && AsText(pg, field).value in ss
  {
    var t := AsText(pg, field);
    if t.Some? && t.value in ss {
      var i :| 0 <= i < |ss| && ss[i] == t.value;
      assert EqualTo(pg, field, es[i]);
    }
  }

  lemma StringListElems(v: Val)
    requires StringList(v).Ok?
    ensures |StringList(v).value| == |ElemsOf(v)|
    ensures forall i :: 0 <= i < |ElemsOf(v)| ==> ElemsOf(v)[i] == VStr(StringList(v).value[i])
  {
  }

  /** `$in` reads the list as a text array or a numeric array and compares accordingly. */
  lemma InListMeaning(pg: Pg, row: Row, all: seq<V>, path: string, v: Val)
    requires PlainPath(path) && !IsId(path) && InList(path, v).Ok?
    ensures var field := Field(row, path); var (e, arr) := InList(path, v).value; var x := Eval(pg, row, all, e);
      && x == (if NumericList(v) then CastV(pg, TextV(AsText(pg, field)), Numeric) else TextV(AsText(pg, field)))
      && (if NumericList(v) then arr.Nums? && (Among(pg, field, ElemsOf(v)) <==> AsNum(pg, field).Some? && AsNum(pg, field).value in arr.ns)
          else arr.Texts? && (Among(pg, field, ElemsOf(v)) <==> AsText(pg, field).Some? && AsText(pg, field).value in arr.ss))
  {
    ExtractionReadsField(pg, row, all, path);
    CastText(pg, row, all, TextExpr(path), Numeric);
    var (e, arr) := InList(path, v).value;
    var es, field := ElemsOf(v), Field(row, path);
    if es == [] {
      TextList(es, [], pg, field);
    } else if es[0].VStr? {
      StringListElems(v);
      TextList(es, StringList(v).value, pg, field);
    } else {
      NumberList(es, arr.ns, pg, field);
    }
  }

  lemma AnyVerdict(pg: Pg, field: Option<Json>, v: Val, x: V, arr: V)
    requires x == (if NumericList(v) then CastV(pg, TextV(AsText(pg, field)), Numeric) else TextV(AsText(pg, field)))
    requires if NumericList(v) then arr.Nums? && (Among(pg, field, ElemsOf(v)) <==> AsNum(pg, field).Some? && AsNum(pg, field).value in arr.ns)
             else arr.Texts? && (Among(pg, field, ElemsOf(v)) <==> AsText(pg, field).Some? && AsText(pg, field).value in arr.ss)
    ensures Verdict(AnyV(x, arr), NumericList(v) ==> NumOk(pg, field), Among(pg, field, ElemsOf(v)))
    ensures var isNull := if x.Fault? then Fault else Bool(x.Null?);
      Verdict(OrV(isNull, OrV(NotV(AnyV(x, arr)), Bool(false))), NumericList(v) ==> NumOk(pg, field), !Among(pg, field, ElemsOf(v)))
  {
  }

  lemma NotAnyEval(pg: Pg, row: Row, all: seq<V>, e: Expr, p: Expr)
    ensures var x, arr := Eval(pg, row, all, e), Eval(pg, row, all, p);
      && Eval(pg, row, all, EqAny(e, p)) == AnyV(x, arr)
      && Eval(pg, row, all, NotAny(e, p)) == OrV(if x.Fault? then Fault else Bool(x.Null?), OrV(NotV(AnyV(x, arr)), Bool(false)))
  {
    hide AnyV, OrV, NotV;
    var any := EqAny(e, p);
    NegatedGroup(pg, row, all, any);
    OrPair(pg, row, all, IsNull(e, true), Not(Group(any)));
  }

  lemma NegatedGroup(pg: Pg, row: Row, all: seq<V>, e: Expr)
    ensures Eval(pg, row, all, Not(Group(e))) == NotV(Eval(pg, row, all, e))
  {
    hide NotV;
    assert Eval(pg, row, all, Group(e)) == Eval(pg, row, all, e);
  }

  lemma MembershipCorrect(pg: Pg, row: Row, all: seq<V>, path: string, v: Val, p: Expr)
    requires PlainPath(path) && !IsId(path) && InList(path, v).Ok?
    requires Eval(pg, row, all, p) == InList(path, v).value.1
    ensures var field, e := Field(row, path), InList(path, v).value.0;
      && Verdict(Eval(pg, row, all, EqAny(e, p)), CastsOp(pg, field, OIn, v), MeansOp(pg, field, OIn, v))
      && Verdict(Eval(pg, row, all, NotAny(e, p)), CastsOp(pg, field, ONin, v), MeansOp(pg, field, ONin, v))
  {
    InListMeaning(pg, row, all, path, v);
    var (e, arr) := InList(path, v).value;
    AnyVerdict(pg, Field(row, path), v, Eval(pg, row, all, e), arr);
    NotAnyEval(pg, row, all, e, p);
  }

  /** The operators the source has: `OCmp` is one of the four order comparisons. */
  predicate Proper(op: Operator) {
    op.OCmp? ==> !op.c.Eq? && !op.c.Ne?
  }

  lemma IdCorrect(pg: Pg, row: Row, all: seq<V>, path: string, op: Operator, v: Val, n: nat)
    requires IsId(path) && Proper(op) && TranslateId(op, v, n).Ok?
    requires ArgsAt(all, n, TranslateId(op, v, n).value.args)
    ensures Verdict(Eval(pg, row, all, TranslateId(op, v, n).value.parts[0]), CastsOp(pg, Field(row, path), op, v), MeansOp(pg, Field(row, path), op, v))
  {
    BoundArg(pg, row, all, n, TranslateId(op, v, n).value.args[0]);
    if op == OIn || op == ONin {
      IdMembership(pg, row, all, path, v, n);
    }
  }

  lemma IdMembership(pg: Pg, row: Row, all: seq<V>, path: string, v: Val, n: nat)
    requires IsId(path) && StringList(v).Ok? && Eval(pg, row, all, Param(n + 1)) == Texts(StringList(v).value)
    ensures var field, any := Field(row, path), EqAny(IdCol, Param(n + 1));
      && Verdict(Eval(pg, row, all, any), CastsOp(pg, field, OIn, v), MeansOp(pg, field, OIn, v))
      && Verdict(Eval(pg, row, all, Not(Group(any))), CastsOp(pg, field, ONin, v), MeansOp(pg, field, ONin, v))
  {
    var ss, any := StringList(v).value, EqAny(IdCol, Param(n + 1));
    StringListElems(v);
    TextList(ElemsOf(v), ss, pg, Field(row, path));
    assert Eval(pg, row, all, any) == Bool(row.id in ss);
    NegatedGroup(pg, row, all, any);
  }

  lemma ComparisonCorrect(pg: Pg, row: Row, all: seq<V>, path: string, v: Val, p: Expr)
    requires PlainPath(path) && !IsId(path) && TypedExpr(path, v).Ok?
    requires Eval(pg, row, all, p) == TypedExpr(path, v).value.1
    ensures var field, e := Field(row, path), TypedExpr(path, v).value.0;
      && Verdict(Eval(pg, row, all, Compare(Eq, e, p)), CastOk(pg, field, v), EqualTo(pg, field, v))
      && Verdict(Eval(pg, row, all, Distinct(e, p)), CastOk(pg, field, v), !EqualTo(pg, field, v))
      && forall c: Cmp :: c != Eq && c != Ne ==>
           Verdict(Eval(pg, row, all, Compare(c, e, p)), CastOk(pg, field, v), OrderedAs(pg, field, c, v))
  {
    hide CastOk, EqualTo, OrderedAs, CompareV, DistinctV, OperandV, Verdict, PlainPath, Eval, TypedExpr;
    TypedOperand(pg, row, all, path, v);
    var (e, arg) := TypedExpr(path, v).value;
    var field := Field(row, path);
    EqualVerdict(pg, field, v, arg);
    ComparisonEval(pg, row, all, Eq, e, p);
    forall c: Cmp | c != Eq && c != Ne
      ensures Verdict(Eval(pg, row, all, Compare(c, e, p)), CastOk(pg, field, v), OrderedAs(pg, field, c, v))
    {
      OrderVerdict(pg, field, c, v, arg);
      ComparisonEval(pg, row, all, c, e, p);
    }
  }

  lemma ComparisonEval(pg: Pg, row: Row, all: seq<V>, c: Cmp, e: Expr, p: Expr)
    ensures Eval(pg, row, all, Compare(c, e, p)) == CompareV(pg, c, Eval(pg, row, all, e), Eval(pg, row, all, p))
    ensures Eval(pg, row, all, Distinct(e, p)) == DistinctV(pg, Eval(pg, row, all, e), Eval(pg, row, all, p))
  {
    hide CompareV, DistinctV;
  }

  lemma ExistsCorrect(pg: Pg, row: Row, all: seq<V>, path: string, want: bool)
    requires PlainPath(path) && !IsId(path)
    ensures Eval(pg, row, all, IsNull(JsonExpr(path), !want)) == Bool(want == Field(row, path).Some?)
  {
    assert Eval(pg, row, all, JsonExpr(path)) == JsonbV(Field(row, path)) by { ExtractionReadsField(pg, row, all, path); }
  }

  lemma ContainsCorrect(pg: Pg, row: Row, all: seq<V>, path: string, v: Val, p: Expr)
    requires PlainPath(path) && !IsId(path)
    requires Eval(pg, row, all, p) == JsonV(JArr([Encode(v)]))
    ensures Verdict(Eval(pg, row, all, Infix(Contains, JsonExpr(path), Cast(p, Jsonb))), true, MeansOp(pg, Field(row, path), OContains, v))
  {
    hide Encode, PlainPath;
    var j := JsonExpr(path);
    assert Eval(pg, row, all, j) == JsonbV(Field(row, path)) by { ExtractionReadsField(pg, row, all, path); }
    hide JsonExpr;
    assert Eval(pg, row, all, Cast(p, Jsonb)) == JsonV(JArr([Encode(v)]));
  }

  /** One operator on one document path: the emitted condition means what the operator means. */
  lemma DocOpCorrect(pg: Pg, row: Row, all: seq<V>, path: string, op: Operator, v: Val, n: nat)
    requires PlainPath(path) && !IsId(path) && Proper(op)
    requires TranslateDocOp(path, op, v, n).Ok?
    requires ArgsAt(all, n, TranslateDocOp(path, op, v, n).value.args)
    ensures |TranslateDocOp(path, op, v, n).value.parts| == 1
    ensures Verdict(Eval(pg, row, all, TranslateDocOp(path, op, v, n).value.parts[0]), CastsOp(pg, Field(row, path), op, v), MeansOp(pg, Field(row, path), op, v))
  {
    var out := TranslateDocOp(path, op, v, n).value;
    var p := Param(n + 1);
    if out.args != [] {
      BoundArg(pg, row, all, n, out.args[0]);
    }
    match op
    case OExists => ExistsCorrect(pg, row, all, path, v.b);
    case OContains => ContainsCorrect(pg, row, all, path, v, p);
    case OIn => MembershipCorrect(pg, row, all, path, v, p);
    case ONin => MembershipCorrect(pg, row, all, path, v, p);
    case OCmp(c) => ComparisonCorrect(pg, row, all, path, v, p);
    case OEq =>
      if v.VNil? { AbsentOrNullCorrect(pg, row, all, path); } else { ComparisonCorrect(pg, row, all, path, v, p); }
    case ONe =>
      if v.VNil? { AbsentOrNullCorrect(pg, row, all, path); } else { ComparisonCorrect(pg, row, all, path, v, p); }
  }

  // ----- operator maps and filters -----

  /** The rendered parts of an output, taken together, have the given verdict. */
  ghost predicate Means(pg: Pg, row: Row, all: seq<V>, out: Out, casts: bool, met: bool) {
    && Verdict(Conj(pg, row, all, out.parts), casts, met)
    && (|out.parts| == 1 ==> IsCondition(Eval(pg, row, all, out.parts[0])))
  }

  lemma SingleMeans(pg: Pg, row: Row, all: seq<V>, e: Expr, args: seq<V>, casts: bool, met: bool)
    requires Verdict(Eval(pg, row, all, e), casts, met)
    ensures Means(pg, row, all, Out([e], args), casts, met)
  {
    var parts := [e];
    assert parts[1..] == [];
    assert Conj(pg, row, all, parts[1..]) == Bool(true);
    assert Conj(pg, row, all, parts) == AndV(Eval(pg, row, all, e), Conj(pg, row, all, parts[1..]));
  }

  lemma AppendMeans(pg: Pg, row: Row, all: seq<V>, a: Out, b: Out, c1: bool, m1: bool, c2: bool, m2: bool)
    requires Means(pg, row, all, a, c1, m1) && Means(pg, row, all, b, c2, m2)
    ensures Means(pg, row, all, Out(a.parts + b.parts, a.args + b.args), c1 && c2, m1 && m2)
  {
    ConjAppend(pg, row, all, a.parts, b.parts);
    var parts := a.parts + b.parts;
    if |parts| == 1 {
      assert parts[0] == if a.parts == [] then b.parts[0] else a.parts[0];
    }
  }

  lemma OpCorrect(pg: Pg, row: Row, all: seq<V>, path: string, op: Operator, v: Val, n: nat)
    requires PlainPath(path) && Proper(op) && TranslateOp(path, op, v, n).Ok?
    requires ArgsAt(all, n, TranslateOp(path, op, v, n).value.args)
    ensures Means(pg, row, all, TranslateOp(path, op, v, n).value, CastsOp(pg, Field(row, path), op, v), MeansOp(pg, Field(row, path), op, v))
  {
    var out := TranslateOp(path, op, v, n).value;
    if IsId(path) {
      IdCorrect(pg, row, all, path, op, v, n);
    } else {
      DocOpCorrect(pg, row, all, path, op, v, n);
    }
    assert out == Out([out.parts[0]], out.args);
    SingleMeans(pg, row, all, out.parts[0], out.args, CastsOp(pg, Field(row, path), op, v), MeansOp(pg, Field(row, path), op, v));
  }

  lemma RegexCorrect(pg: Pg, row: Row, all: seq<V>, path: string, pattern: Val, options: Option<Val>, n: nat)
    requires PlainPath(path) && !IsId(path) && TranslateRegex(path, pattern, options, n).Ok?
    requires ArgsAt(all, n, TranslateRegex(path, pattern, options, n).value.args)
    ensures Means(pg, row, all, TranslateRegex(path, pattern, options, n).value, true, MatchesRegex(pg, row, path, pattern, options))
  {
    var out := TranslateRegex(path, pattern, options, n).value;
    BoundArg(pg, row, all, n, out.args[0]);
    assert Eval(pg, row, all, TextExpr(path)) == TextV(AsText(pg, Field(row, path))) by { ExtractionReadsField(pg, row, all, path); }
    SingleMeans(pg, row, all, out.parts[0], out.args, true, MatchesRegex(pg, row, path, pattern, options));
  }

  lemma EntryCorrect(pg: Pg, row: Row, all: seq<V>, path: string, ops: Doc, op: string, n: nat)
    requires PlainPath(path) && op in ops.fields && (op == "$regex" ==> !IsId(path))
    requires TranslateEntry(path, ops, op, n).Ok?
    requires ArgsAt(all, n, TranslateEntry(path, ops, op, n).value.args)
    ensures Means(pg, row, all, TranslateEntry(path, ops, op, n).value, CastsEntry(pg, row, path, ops, op), MatchesEntry(pg, row, path, ops, op))
  {
    if op == "$options" {
    } else if op == "$regex" {
      RegexCorrect(pg, row, all, path, ops.fields[op], Get(ops, "$options"), n);
    } else {
      OpCorrect(pg, row, all, path, OperatorOf(op).value, ops.fields[op], n);
    }
  }

  lemma {:induction false} EntriesCorrect(pg: Pg, row: Row, all: seq<V>, path: string, ops: Doc, keys: seq<string>, n: nat)
    requires PlainPath(path) && ("$regex" in ops.fields ==> !IsId(path))
    requires forall k :: k in keys ==> k in ops.fields
    requires TranslateEntries(path, ops, keys, n).Ok?
    requires ArgsAt(all, n, TranslateEntries(path, ops, keys, n).value.args)
    ensures Means(pg, row, all, TranslateEntries(path, ops, keys, n).value,
                  forall k :: k in keys ==> CastsEntry(pg, row, path, ops, k),
                  forall k :: k in keys ==> MatchesEntry(pg, row, path, ops, k))
  {
    hide TranslateEntry, MatchesEntry, CastsEntry, PlainPath;
    if keys != [] {
      var first := TranslateEntry(path, ops, keys[0], n).value;
      var rest := TranslateEntries(path, ops, keys[1..], n + |first.args|).value;
      ArgsAtSplit(all, n, first.args, rest.args);
      EntryCorrect(pg, row, all, path, ops, keys[0], n);
      EntriesCorrect(pg, row, all, path, ops, keys[1..], n + |first.args|);
      var c1, m1 := CastsEntry(pg, row, path, ops, keys[0]), MatchesEntry(pg, row, path, ops, keys[0]);
      var c2 := forall k :: k in keys[1..] ==> CastsEntry(pg, row, path, ops, k);
      var m2 := forall k :: k in keys[1..] ==> MatchesEntry(pg, row, path, ops, k);
      AppendMeans(pg, row, all, first, rest, c1, m1, c2, m2);
      assert forall k :: k in keys <==> k == keys[0] || k in keys[1..];
      assert (c1 && c2) == (forall k :: k in keys ==> CastsEntry(pg, row, path, ops, k));
      assert (m1 && m2) == (forall k :: k in keys ==> MatchesEntry(pg, row, path, ops, k));
    }
  }

  lemma EntryParts(path: string, ops: Doc, op: string, n: nat)
    requires op in ops.fields && TranslateEntry(path, ops, op, n).Ok?
    ensures |TranslateEntry(path, ops, op, n).value.parts| == if op == "$options" then 0 else 1
  {
  }

  /** Some operator other than `$options` is present, so something is emitted. */
  lemma {:induction false} EntriesNonEmpty(path: string, ops: Doc, keys: seq<string>, n: nat)
    requires forall k :: k in keys ==> k in ops.fields
    requires TranslateEntries(path, ops, keys, n).Ok?
    ensures TranslateEntries(path, ops, keys, n).value.parts == [] <==> forall k :: k in keys ==> k == "$options"
  {
    hide TranslateEntry;
    if keys != [] {
      EntryParts(path, ops, keys[0], n);
      var first := TranslateEntry(path, ops, keys[0], n).value;
      EntriesNonEmpty(path, ops, keys[1..], n + |first.args|);
      assert forall k :: k in keys <==> k == keys[0] || k in keys[1..];
    }
  }

  lemma FieldCorrect(pg: Pg, row: Row, all: seq<V>, path: string, v: Val, n: nat)
    requires SupportedField(path, v) && TranslateField(path, v, n).Ok?
    requires ArgsAt(all, n, TranslateField(path, v, n).value.args)
    ensures Means(pg, row, all, TranslateField(path, v, n).value, CastsField(pg, row, path, v), MatchesField(pg, row, path, v))
  {
    if v.VMap? && IsOpMap(v.f) {
      var ks := v.f.fields.Keys;
      var keys := SortedKeys(ks);
      SortedKeysFacts(ks);
      EntriesNonEmpty(path, v.f, keys, n);
      var op :| op in v.f.fields;
      var shown := if "$options" in v.f.fields then "$regex" else op;
      assert shown in keys && shown != "$options";
      EntriesCorrect(pg, row, all, path, v.f, keys, n);
      assert CastsField(pg, row, path, v) <==> forall k :: k in keys ==> CastsEntry(pg, row, path, v.f, k);
      assert MatchesField(pg, row, path, v) <==> forall k :: k in keys ==> MatchesEntry(pg, row, path, v.f, k);
    } else {
      OpCorrect(pg, row, all, path, OEq, v, n);
    }
  }

  ghost predicate AllCast(pg: Pg, row: Row, v: Val, i: nat)
    requires IsFilterList(v)
  {
    forall j :: i <= j < SubCount(v) ==> Casts(pg, row, Sub(v, j))
  }

  ghost predicate AllMatch(pg: Pg, row: Row, v: Val, i: nat)
    requires IsFilterList(v)
  {
    forall j :: i <= j < SubCount(v) ==> Matches(pg, row, Sub(v, j))
  }

  ghost predicate AnyMatch(pg: Pg, row: Row, v: Val, i: nat)
    requires IsFilterList(v)
  {
    exists j :: i <= j < SubCount(v) && Matches(pg, row, Sub(v, j))
  }

  lemma ConsVerdicts(pg: Pg, row: Row, all: seq<V>, e: Expr, es: seq<Expr>, c1: bool, m1: bool, c2: bool, mAll: bool, mAny: bool)
    requires Verdict(Eval(pg, row, all, e), c1, m1)
    requires Verdict(Conj(pg, row, all, es), c2, mAll) && Verdict(Disj(pg, row, all, es), c2, mAny)
    ensures Verdict(Conj(pg, row, all, [e] + es), c1 && c2, m1 && mAll)
    ensures Verdict(Disj(pg, row, all, [e] + es), c1 && c2, m1 || mAny)
  {
    var xs := [e] + es;
    assert xs[0] == e && xs[1..] == es;
    assert Conj(pg, row, all, xs) == AndV(Eval(pg, row, all, e), Conj(pg, row, all, es));
    assert Disj(pg, row, all, xs) == OrV(Eval(pg, row, all, e), Disj(pg, row, all, es));
  }

  lemma MkOrVerdict(pg: Pg, row: Row, all: seq<V>, parts: seq<Expr>, casts: bool, met: bool)
    requires parts != [] && Verdict(Disj(pg, row, all, parts), casts, met)
    requires |parts| == 1 ==> IsCondition(Eval(pg, row, all, parts[0]))
    ensures Verdict(Eval(pg, row, all, MkOr(parts)), casts, met)
  {
    if |parts| == 1 {
      assert parts[1..] == [];
      assert Disj(pg, row, all, parts[1..]) == Bool(false);
      assert Disj(pg, row, all, parts) == OrV(Eval(pg, row, all, parts[0]), Bool(false));
    }
  }

  lemma GroupVerdict(pg: Pg, row: Row, all: seq<V>, e: Expr, casts: bool, met: bool)
    requires Verdict(Eval(pg, row, all, e), casts, met)
    ensures Verdict(Eval(pg, row, all, Group(e)), casts, met)
  {
  }

  lemma SubsUnfold(v: Val, i: nat, n: nat)
    requires IsFilterList(v) && i < SubCount(v) && TranslateSubs(v, i, n).Ok?
    ensures TranslateFilter(Sub(v, i), n).Ok?
    ensures var out := TranslateFilter(Sub(v, i), n).value;
      && TranslateSubs(v, i + 1, n + |out.args|).Ok?
      && var rest := TranslateSubs(v, i + 1, n + |out.args|).value;
         TranslateSubs(v, i, n).value == Out([Group(MkAnd(out.parts))] + rest.parts, out.args + rest.args)
  {
    hide TranslateFilter;
  }

  lemma QuantifiersUnfold(pg: Pg, row: Row, v: Val, i: nat)
    requires IsFilterList(v) && i < SubCount(v)
    ensures AllCast(pg, row, v, i) == (Casts(pg, row, Sub(v, i)) && AllCast(pg, row, v, i + 1))
    ensures AllMatch(pg, row, v, i) == (Matches(pg, row, Sub(v, i)) && AllMatch(pg, row, v, i + 1))
    ensures AnyMatch(pg, row, v, i) == (Matches(pg, row, Sub(v, i)) || AnyMatch(pg, row, v, i + 1))
  {
    hide Casts, Matches;
  }

  /** The sub-filters of `$or`/`$and`, each in parentheses. */
  lemma {:induction false} SubsCorrect(pg: Pg, row: Row, all: seq<V>, v: Val, i: nat, n: nat)
    requires IsFilterList(v) && i <= SubCount(v)
    requires forall j :: i <= j < SubCount(v) ==> Supported(Sub(v, j))
    requires TranslateSubs(v, i, n).Ok?
    requires ArgsAt(all, n, TranslateSubs(v, i, n).value.args)
    ensures var parts := TranslateSubs(v, i, n).value.parts;
      && |parts| == SubCount(v) - i
      && (parts != [] ==> IsCondition(Eval(pg, row, all, parts[0])))
      && Verdict(Conj(pg, row, all, parts), AllCast(pg, row, v, i), AllMatch(pg, row, v, i))
      && Verdict(Disj(pg, row, all, parts), AllCast(pg, row, v, i), AnyMatch(pg, row, v, i))
    decreases v, SubCount(v) - i
  {
    hide Casts, Matches, Supported, TranslateFilter, Eval;
    if i == SubCount(v) {
      assert TranslateSubs(v, i, n).value.parts == [];
    } else {
      hide AllCast, AllMatch, AnyMatch, TranslateSubs, Conj, Disj, MkAnd;
      var sub := Sub(v, i);
      SubsUnfold(v, i, n);
      var out := TranslateFilter(sub, n).value;
      var rest := TranslateSubs(v, i + 1, n + |out.args|).value;
      ArgsAtSplit(all, n, out.args, rest.args);
      TranslationCorrect(pg, row, all, sub, n);
      GroupVerdict(pg, row, all, MkAnd(out.parts), Casts(pg, row, sub), Matches(pg, row, sub));
      SubsCorrect(pg, row, all, v, i + 1, n + |out.args|);
      ConsVerdicts(pg, row, all, Group(MkAnd(out.parts)), rest.parts, Casts(pg, row, sub), Matches(pg, row, sub),
                   AllCast(pg, row, v, i + 1), AllMatch(pg, row, v, i + 1), AnyMatch(pg, row, v, i + 1));
      QuantifiersUnfold(pg, row, v, i);
    }
  }

  lemma FieldNonEmpty(path: string, v: Val, n: nat)
    requires TranslateField(path, v, n).Ok?
    ensures TranslateField(path, v, n).value.parts != []
  {
  }

  lemma {:induction false} KeyCorrect(pg: Pg, row: Row, all: seq<V>, f: Doc, k: string, n: nat)
    requires k in f.fields && SupportedKey(f, k) && TranslateKey(f, k, n).Ok?
    requires ArgsAt(all, n, TranslateKey(f, k, n).value.args)
    ensures TranslateKey(f, k, n).value.parts != []
    ensures Means(pg, row, all, TranslateKey(f, k, n).value, CastsKey(pg, row, f, k), MatchesKey(pg, row, f, k))
    decreases f, 0, 0
  {
    hide Casts, Matches, Supported, TranslateFilter, TranslateField, CastsField, MatchesField, Eval;
    var v := f.fields[k];
    if k == "$or" || k == "$and" {
      SubsCorrect(pg, row, all, v, 0, n);
      var out := TranslateSubs(v, 0, n).value;
      var c, m := AllCast(pg, row, v, 0), if k == "$or" then AnyMatch(pg, row, v, 0) else AllMatch(pg, row, v, 0);
      var e := if k == "$or" then MkOr(out.parts) else MkAnd(out.parts);
      if k == "$or" {
        MkOrVerdict(pg, row, all, out.parts, c, m);
      } else {
        MkAndVerdict(pg, row, all, out.parts, c, m);
      }
      GroupVerdict(pg, row, all, e, c, m);
      SingleMeans(pg, row, all, Group(e), out.args, c, m);
    } else {
      FieldCorrect(pg, row, all, k, v, n);
      FieldNonEmpty(k, v, n);
    }
  }

  lemma {:induction false} KeysCorrect(pg: Pg, row: Row, all: seq<V>, f: Doc, keys: seq<string>, n: nat)
    requires Supported(f) && forall k :: k in keys ==> k in f.fields
    requires TranslateKeys(f, keys, n).Ok?
    requires ArgsAt(all, n, TranslateKeys(f, keys, n).value.args)
    ensures keys != [] ==> TranslateKeys(f, keys, n).value.parts != []
    ensures Means(pg, row, all, TranslateKeys(f, keys, n).value,
                  forall k :: k in keys ==> CastsKey(pg, row, f, k),
                  forall k :: k in keys ==> MatchesKey(pg, row, f, k))
    decreases f, 0, |keys|, 1
  {
    hide CastsKey, MatchesKey, SupportedKey, TranslateKey, Eval;
    if keys != [] {
      var first := TranslateKey(f, keys[0], n).value;
      var rest := TranslateKeys(f, keys[1..], n + |first.args|).value;
      ArgsAtSplit(all, n, first.args, rest.args);
      KeyCorrect(pg, row, all, f, keys[0], n);
      KeysCorrect(pg, row, all, f, keys[1..], n + |first.args|);
      var c1, m1 := CastsKey(pg, row, f, keys[0]), MatchesKey(pg, row, f, keys[0]);
      var c2 := forall k :: k in keys[1..] ==> CastsKey(pg, row, f, k);
      var m2 := forall k :: k in keys[1..] ==> MatchesKey(pg, row, f, k);
      AppendMeans(pg, row, all, first, rest, c1, m1, c2, m2);
      assert forall k :: k in keys <==> k == keys[0] || k in keys[1..];
      assert (c1 && c2) == (forall k :: k in keys ==> CastsKey(pg, row, f, k));
      assert (m1 && m2) == (forall k :: k in keys ==> MatchesKey(pg, row, f, k));
    }
  }

  /** MAIN RESULT.  For every filter the translator accepts, every row and every placement of
      its arguments, the emitted condition raises an error exactly when one of its casts is
      undefined on the row, and otherwise is TRUE exactly when the row matches the filter. */
  lemma {:induction false} TranslationCorrect(pg: Pg, row: Row, all: seq<V>, f: Doc, n: nat)
    requires Supported(f) && TranslateFilter(f, n).Ok?
    requires ArgsAt(all, n, TranslateFilter(f, n).value.args)
    ensures TranslateFilter(f, n).value.parts != []
    ensures Verdict(Eval(pg, row, all, MkAnd(TranslateFilter(f, n).value.parts)), Casts(pg, row, f), Matches(pg, row, f))
    decreases f, 1
  {
    hide CastsKey, MatchesKey, SupportedKey, TranslateKey;
    var out := TranslateFilter(f, n).value;
    if f.fields == map[] {
      SingleMeans(pg, row, all, True, [], true, true);
    } else {
      var keys := SortedKeys(f.fields.Keys);
      SortedKeysFacts(f.fields.Keys);
      var k :| k in f.fields;
      assert k in keys;
      KeysCorrect(pg, row, all, f, keys, n);
      assert Casts(pg, row, f) <==> forall k :: k in keys ==> CastsKey(pg, row, f, k);
      assert Matches(pg, row, f) <==> forall k :: k in keys ==> MatchesKey(pg, row, f, k);
      MkAndVerdict(pg, row, all, out.parts, Casts(pg, row, f), Matches(pg, row, f));
    }
  }
}
