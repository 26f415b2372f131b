/** Whole statements: the rendered text is parsed under SQL precedence, its conditions and
    document expressions are evaluated with the bound arguments, and the effect on a row is
    compared with the filter and update that were asked for. */
module Statements {
  import opened Base
  import opened Ordering
  import opened Sql
  import opened SqlText
  import opened Filter
  import opened FilterText
  import opened FilterCorrect
  import opened WhereBuilding
  import opened SetUnset
  import opened UpdateSql
  import opened UpdateOrder

  /** `UPDATE t SET doc = set WHERE where`, both as text, with the arguments they share. */
  datatype Statement = Statement(set_: seq<UToken>, where_: Tokens, args: seq<V>)

  /** The statement's effect on one row; None when PostgreSQL raises an error. */
  function Execute(pg: Pg, st: Statement, row: Row): Option<Row> {
    match Parse(0, st.where_)
    case None => None
    case Some((cond, rest)) =>
      var v := Eval(pg, row, st.args, cond);
      if rest != [] || v.Fault? then None
      else if v == Bool(true) then
        match RunText(st.set_, row.doc, st.args) { case Some(doc) => Some(Row(row.id, doc)) case None => None }
      else Some(row)
  }

  lemma {:induction false} SupportedIsComplete(f: Doc)
    requires Supported(f)
    ensures Complete(f)
    decreases f, 1
  {
    forall k | k in f.fields ensures CompleteKey(f, k) {
      assert SupportedKey(f, k);
      SupportedKeyIsComplete(f, k);
    }
  }

  lemma {:induction false} SupportedKeyIsComplete(f: Doc, k: string)
    requires k in f.fields && SupportedKey(f, k)
    ensures CompleteKey(f, k)
    decreases f, 0
  {
    var v := f.fields[k];
    if k == "$or" || k == "$and" {
      if IsFilterList(v) {
        forall i | 0 <= i < SubCount(v) ensures Complete(Sub(v, i)) { SupportedIsComplete(Sub(v, i)); }
      }
    } else if v.VMap? && IsOpMap(v.f) {
      var op :| op in v.f.fields;
      var shown := if "$options" in v.f.fields then "$regex" else op;
      assert shown in v.f.fields && shown != "$options";
    }
  }

  lemma WhereMeans(pg: Pg, row: Row, f: Doc, n: nat, all: seq<V>)
    requires Supported(f) && TranslateFilter(f, n).Ok? && ArgsAt(all, n, TranslateFilter(f, n).value.args)
    ensures var cond := MkAnd(TranslateFilter(f, n).value.parts);
      && RenderList(TranslateFilter(f, n).value.parts, TAnd) == Render(cond)
      && Parse(0, Render(cond)) == Some((cond, []))
      && Verdict(Eval(pg, row, all, cond), Casts(pg, row, f), Matches(pg, row, f))
  {
    hide TranslateFilter, Supported, Casts, Matches, Parse, Eval;
    SupportedIsComplete(f);
    TextReadsBack(f, n, True);
    TranslationCorrect(pg, row, all, f, n);
  }

  /** What `SetFields` does to a row, given the order in which the set map was iterated: a
      matching row gets the outcome of the update, the others are left alone, and an error is
      raised where a cast of the filter or a step of the update is undefined. */
  ghost predicate Performs(st: Statement, f: Doc, s: map<string, Val>, order: seq<string>, unset: seq<string>, pg: Pg, row: Row)
    requires forall k :: k in order ==> k in s
  {
    row.doc.JObj? ==>
      Execute(pg, st, row) ==
        if !Casts(pg, row, f) then None
        else if Matches(pg, row, f) then
          (match Outcome(row.doc, s, order, unset) case Some(doc) => Some(Row(row.id, doc)) case None => None)
        else Some(row)
  }

  lemma StatementPerforms(st: Statement, f: Doc, s: map<string, Val>, order: seq<string>, unset: seq<string>, n: nat, pg: Pg, row: Row)
    requires Supported(f) && TranslateFilter(f, n).Ok? && n <= |st.args| && forall k :: k in order ==> k in s
    requires st.args[n..] == TranslateFilter(f, n).value.args
    requires st.where_ == RenderList(TranslateFilter(f, n).value.parts, TAnd)
    requires row.doc.JObj? ==> RunText(st.set_, row.doc, st.args) == Outcome(row.doc, s, order, unset)
    ensures Performs(st, f, s, order, unset, pg, row)
  {
    hide TranslateFilter, Supported, Casts, Matches, Parse, Eval, RunText, Outcome;
    assert ArgsAt(st.args, n, TranslateFilter(f, n).value.args) by {
      assert st.args[n..|st.args|] == st.args[n..];
    }
    WhereMeans(pg, row, f, n, st.args);
  }

  /** MAIN RESULT.  `SetFields` compiles the update and then the filter over one shared
      argument list; executed as text on any row, the statement does what was asked. */
  method SetFields(f: Doc, s: map<string, Val>, unset: seq<string>) returns (r: Result<Statement>, ghost order: seq<string>)
    requires PlainKeys(s, unset)
    ensures r.Ok? && Supported(f) ==> Lists(order, s) && forall k :: k in order ==> k in s
    ensures r.Ok? && Supported(f) ==> forall pg: Pg, row: Row :: Performs(r.value, f, s, order, unset, pg, row)
    ensures r.Ok? <==> (forall k :: k in s ==> Encodable(s[k])) && TranslateFilter(f, 0).Ok?
  {
    hide TranslateFilter, Supported, RunText, Outcome, Encodable, PlainKeys, Performs, Lists, Consecutive;
    var set_, bound;
    set_, bound, order := SetUnsetSQL(s, unset, []);
    if set_.Err? { return Err(set_.error), order; }
    var b := new WhereBuilder(bound);
    var where_ := b.Filter(f);
    OkIsUniform(f, 0, |bound|);
    if where_.Err? { return Err(where_.error), order; }
    var st := Statement(set_.value, where_.value, b.args);
    r := Ok(st);
    if Supported(f) {
      forall pg: Pg, row: Row ensures Performs(st, f, s, order, unset, pg, row) {
        assert bound <= b.args && b.args[|bound|..] == TranslateFilter(f, |bound|).value.args;
        StatementPerforms(st, f, s, order, unset, |bound|, pg, row);
      }
    }
  }

  /** With prefix-free set keys the order is of no account: a matching row gets the order-free
      update, unless an array is in the way of one of its paths. */
  lemma PerformsUpdate(st: Statement, f: Doc, s: map<string, Val>, order: seq<string>, unset: seq<string>, pg: Pg, row: Row)
    requires PrefixFree(s) && Lists(order, s) && (forall k :: k in order ==> k in s) && row.doc.JObj?
    requires Performs(st, f, s, order, unset, pg, row)
    ensures Execute(pg, st, row) ==
      if !Casts(pg, row, f) then None
      else if !Matches(pg, row, f) then Some(row)
      else if Clear(row.doc, s, unset) then Some(Row(row.id, Update(row.doc, s, unset)))
      else None
  {
    hide Casts, Matches, Execute, Outcome, Clear, Update;
    OutcomeIsUpdate(row.doc, s, order, unset);
  }

  // ----- acceptance does not depend on the arguments already bound -----

  lemma {:induction false} EntriesOkIsUniform(path: string, ops: Doc, keys: seq<string>, n: nat, m: nat)
    requires forall k :: k in keys ==> k in ops.fields
    ensures TranslateEntries(path, ops, keys, n).Ok? <==> TranslateEntries(path, ops, keys, m).Ok?
  {
    hide TranslateEntry;
    if keys != [] {
      var a, b := TranslateEntry(path, ops, keys[0], n), TranslateEntry(path, ops, keys[0], m);
      EntryOkIsUniform(path, ops, keys[0], n, m);
      EntriesOkIsUniform(path, ops, keys[1..], n + ArgCount(a), m + ArgCount(b));
    }
  }

  lemma EntryOkIsUniform(path: string, ops: Doc, op: string, n: nat, m: nat)
    requires op in ops.fields
    ensures TranslateEntry(path, ops, op, n).Ok? <==> TranslateEntry(path, ops, op, m).Ok?
  {
    hide TextExpr, JsonExpr, NumExpr, TimeExpr, OperatorOf;
  }

  lemma {:induction false} OkIsUniform(f: Doc, n: nat, m: nat)
    ensures TranslateFilter(f, n).Ok? <==> TranslateFilter(f, m).Ok?
    decreases f, 1
  {
    hide TranslateKeys;
    if f.fields != map[] {
      SortedKeysFacts(f.fields.Keys);
      KeysOkIsUniform(f, SortedKeys(f.fields.Keys), n, m);
    }
  }

  lemma {:induction false} KeysOkIsUniform(f: Doc, keys: seq<string>, n: nat, m: nat)
    requires forall k :: k in keys ==> k in f.fields
    ensures TranslateKeys(f, keys, n).Ok? <==> TranslateKeys(f, keys, m).Ok?
    decreases f, 0, |keys|, 1
  {
    hide TranslateKey;
    if keys != [] {
      KeyOkIsUniform(f, keys[0], n, m);
      var a, b := TranslateKey(f, keys[0], n), TranslateKey(f, keys[0], m);
      KeysOkIsUniform(f, keys[1..], n + ArgCount(a), m + ArgCount(b));
    }
  }

  lemma {:induction false} KeyOkIsUniform(f: Doc, k: string, n: nat, m: nat)
    requires k in f.fields
    ensures TranslateKey(f, k, n).Ok? <==> TranslateKey(f, k, m).Ok?
    decreases f, 0, 0
  {
    hide TranslateSubs, TranslateEntries, TranslateOp;
    var v := f.fields[k];
    if k == "$or" || k == "$and" {
      if IsFilterList(v) {
        SubsOkIsUniform(v, 0, n, m);
      }
    } else if v.VMap? && IsOpMap(v.f) {
      SortedKeysFacts(v.f.fields.Keys);
      EntriesOkIsUniform(k, v.f, SortedKeys(v.f.fields.Keys), n, m);
    } else {
      OpOkIsUniform(k, v, n, m);
    }
  }

  lemma OpOkIsUniform(path: string, v: Val, n: nat, m: nat)
    ensures TranslateOp(path, OEq, v, n).Ok? <==> TranslateOp(path, OEq, v, m).Ok?
  {
  }

  lemma {:induction false} SubsOkIsUniform(v: Val, i: nat, n: nat, m: nat)
    requires IsFilterList(v) && i <= SubCount(v)
    ensures TranslateSubs(v, i, n).Ok? <==> TranslateSubs(v, i, m).Ok?
    decreases v, SubCount(v) - i
  {
    hide TranslateFilter;
    if i < SubCount(v) {
      OkIsUniform(Sub(v, i), n, m);
      var a, b := TranslateFilter(Sub(v, i), n), TranslateFilter(Sub(v, i), m);
      SubsOkIsUniform(v, i + 1, n + ArgCount(a), m + ArgCount(b));
    }
  }

  // ----- Distinct -----

  lemma AppendedMeans(pg: Pg, row: Row, args: seq<V>, parts: seq<Expr>, extra: Expr, casts: bool, met: bool, more: bool)
    requires parts != [] && Verdict(Eval(pg, row, args, MkAnd(parts)), casts, met)
    requires Eval(pg, row, args, extra) == Bool(more)
    ensures Verdict(Eval(pg, row, args, And(parts + [extra])), casts, met && more)
  {
    ConjAppend(pg, row, args, parts, [extra]);
    ConjSingle(pg, row, args, extra);
    ConjOfMkAnd(pg, row, args, parts, casts, met);
    assert Eval(pg, row, args, And(parts + [extra])) == Conj(pg, row, args, parts + [extra]);
  }

  lemma HasTextEval(pg: Pg, row: Row, args: seq<V>, field: string)
    requires PlainPath(field)
    ensures Eval(pg, row, args, IsNull(TextExpr(field), false)) == Bool(AsText(pg, Lookup(row.doc, Split(field, '.'))).Some?)
    ensures Canonical(IsNull(TextExpr(field), false)) && Level(IsNull(TextExpr(field), false)) == 3
  {
    hide TextExpr, PlainPath, Split, AsText;
    ExtractionShape(field);
    ExtractionReadsField(pg, row, args, field);
  }

  /** `Distinct` appends `AND field IS NOT NULL` to the rendered filter.  The combined text
      selects exactly the matching rows whose field has a value. */
  lemma DistinctSelects(pg: Pg, row: Row, f: Doc, field: string)
    requires Supported(f) && TranslateFilter(f, 0).Ok? && PlainPath(field)
    ensures var out, extra := TranslateFilter(f, 0).value, IsNull(TextExpr(field), false);
      && Parse(0, Render(MkAnd(out.parts)) + [TAnd] + Render(extra)) == Some((And(out.parts + [extra]), []))
      && Verdict(Eval(pg, row, out.args, And(out.parts + [extra])),
                 Casts(pg, row, f), Matches(pg, row, f) && AsText(pg, Lookup(row.doc, Split(field, '.'))).Some?)
  {
    hide TranslateFilter, Supported, Casts, Matches, Parse, Split, TextExpr, PlainPath, AsText, Eval, Conj, Render, MkAnd, Canonical, Lookup;
    var out, extra := TranslateFilter(f, 0).value, IsNull(TextExpr(field), false);
    SupportedIsComplete(f);
    HasTextEval(pg, row, out.args, field);
    TextReadsBack(f, 0, extra);
    assert ArgsAt(out.args, 0, out.args) by { assert out.args[0..|out.args|] == out.args; }
    TranslationCorrect(pg, row, out.args, f, 0);
    AppendedMeans(pg, row, out.args, out.parts, extra, Casts(pg, row, f), Matches(pg, row, f),
                  AsText(pg, Lookup(row.doc, Split(field, '.'))).Some?);
  }

  lemma ConjSingle(pg: Pg, row: Row, args: seq<V>, e: Expr)
    ensures Conj(pg, row, args, [e]) == AndV(Eval(pg, row, args, e), Bool(true))
  {
    var es := [e];
    assert es[1..] == [];
    assert Conj(pg, row, args, es[1..]) == Bool(true);
  }

  lemma ConjOfMkAnd(pg: Pg, row: Row, args: seq<V>, parts: seq<Expr>, casts: bool, met: bool)
    requires parts != [] && Verdict(Eval(pg, row, args, MkAnd(parts)), casts, met)
    ensures Verdict(Conj(pg, row, args, parts), casts, met)
  {
    if |parts| == 1 {
      ConjSingle(pg, row, args, parts[0]);
      assert parts == [parts[0]];
    }
  }

  // ----- edges of the conventions -----

  /** The id is not part of the stored document: inserts and replacements strip it. */
  predicate Stored(row: Row) {
    row.doc.JObj? && "_id" !in row.doc.fields && "id" !in row.doc.fields
  }

  /** A partial update does not strip it: the document stays without an id exactly when no set key
      is `id` or `_id` that is not unset in the same call. */
  lemma UpdateKeepsStored(row: Row, s: map<string, Val>, order: seq<string>, unset: seq<string>)
    requires Stored(row) && Lists(order, s) && (forall k :: k in order ==> k in s) && Outcome(row.doc, s, order, unset).Some?
    ensures Stored(Row(row.id, Outcome(row.doc, s, order, unset).value)) <==>
      ("id" in s ==> "id" in unset) && ("_id" in s ==> "_id" in unset)
  {
    ListedKeys(order, s);
    hide Outcome;
    TopAfter(row.doc, s, order, unset, "id");
    TopAfter(row.doc, s, order, unset, "_id");
  }

  /** `$regex` is the one operator that does not redirect `_id` to the id column: it reads a
      document field of that name.  On a stored document there is none, so it selects nothing; and
      on any row it agrees with the convention exactly when the field, if there is one, matches
      the pattern just as the id does. */
  lemma RegexOnIdReadsDocument(pg: Pg, row: Row, path: string, pattern: string, options: Option<Val>)
    requires IsId(path)
    ensures var out, t := TranslateRegex(path, VStr(pattern), options, 0).value, AsText(pg, Lookup(row.doc, [path]));
      var v, found := Eval(pg, row, out.args, out.parts[0]), t.Some? && pg.regex(t.value, pattern, IgnoreCase(options));
      && v == (if t.None? then Null else Bool(found))
      && (Stored(row) ==> v == Null)
      && ((v == Bool(true) <==> MatchesRegex(pg, row, path, VStr(pattern), options)) <==> (found <==> pg.regex(row.id, pattern, IgnoreCase(options))))
  {
    RegexEval(pg, row, path, pattern, options);
    IdField(pg, row, [], path);
    hide Eval, TranslateRegex, Lookup, Stored, IgnoreCase;
  }

  lemma RegexEval(pg: Pg, row: Row, path: string, pattern: string, options: Option<Val>)
    requires IsId(path)
    ensures TranslateRegex(path, VStr(pattern), options, 0).Ok? && |TranslateRegex(path, VStr(pattern), options, 0).value.parts| == 1
    ensures var out := TranslateRegex(path, VStr(pattern), options, 0).value;
      Eval(pg, row, out.args, out.parts[0]) ==
        OtherV(pg, if IgnoreCase(options) then IMatch else Match, TextV(AsText(pg, Lookup(row.doc, [path]))), Text(pattern))
  {
    IdField(pg, row, [Text(pattern)], path);
    hide TextExpr, Lookup, IgnoreCase, OtherV, AsText, TextV;
    assert Eval(pg, row, [Text(pattern)], Param(1)) == Text(pattern);
  }

  lemma IdField(pg: Pg, row: Row, args: seq<V>, path: string)
    requires IsId(path)
    ensures Eval(pg, row, args, TextExpr(path)) == TextV(AsText(pg, Lookup(row.doc, [path])))
    ensures Stored(row) ==> Lookup(row.doc, [path]) == None
  {
    SplitSingle(path, '.');
    assert PlainPath(path);
    assert Split(path, '.') == [path];
    ExtractionReadsField(pg, row, args, path);
  }

  /** Number text reads back as the number. */
  ghost predicate NumbersRoundTrip(pg: Pg) {
    forall n: real :: pg.parseNum(pg.numText(n)) == Some(n)
  }

  predicate SameKind(j: Json, v: Val) {
    match v
    case VStr(_) => j.JStr?
    case VBool(_) => j.JBool?
    case VInt(_) => j.JNum?
    case VFloat(_) => j.JNum?
    case VDec(_) => j.JNum?
    case _ => false
  }

  /** Where a field holds the same kind of value as the filter compares with (or nothing),
      the text comparison the SQL makes is equality of JSON values.  Across kinds it is not: the
      boolean true equals the string "true". */
  lemma TextEqualityIsJsonEquality(pg: Pg, field: Option<Json>, v: Val)
    requires NumbersRoundTrip(pg)
    requires v.VStr? || v.VBool? || v.VInt? || v.VFloat? || v.VDec?
    requires field.Some? && field != Some(JNull) ==> SameKind(field.value, v)
    ensures EqualTo(pg, field, v) <==> field == Some(Encode(v))
    ensures EqualTo(pg, Some(JBool(true)), VStr("true")) && JBool(true) != Encode(VStr("true"))
  {
    if field.Some? && field.value.JBool? && v.VBool? {
      assert BoolText(true)[0] != BoolText(false)[0];
    }
  }
}
