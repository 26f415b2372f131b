/** What filters written out in full select, operator by operator: from the map a caller passes,
    through the emitted text and its evaluation, to the rows. */
module FilterLiterals {
  import opened Base
  import opened Ordering
  import opened Sql
  import opened SqlText
  import opened Filter
  import opened FilterText
  import opened FilterCorrect
  import opened Statements

  /** `{path: {op: v}}`. */
  function Single(path: string, op: string, v: Val): Doc {
    Doc(map[path := VMap(Doc(map[op := v]))])
  }

  /** `{path: v}`. */
  function Plainly(path: string, v: Val): Doc {
    Doc(map[path := v])
  }

  /** The filter is accepted, and the condition that its text reads as is TRUE on the row. */
  ghost predicate Selects(pg: Pg, row: Row, f: Doc) {
    TranslateFilter(f, 0).Ok? &&
    var out := TranslateFilter(f, 0).value;
    match Parse(0, RenderList(out.parts, TAnd))
    case Some((cond, rest)) => rest == [] && Eval(pg, row, out.args, cond) == Bool(true)
    case None => false
  }

  ghost predicate Accepted(f: Doc) {
    TranslateFilter(f, 0).Ok?
  }

  /** The text PostgreSQL's `->>` gives for the field; None when it is absent or JSON null. */
  function TextAt(pg: Pg, row: Row, path: string): Option<string> {
    AsText(pg, Lookup(row.doc, Split(path, '.')))
  }

  /** A field of the document. */
  predicate IsField(path: string) {
    PlainPath(path) && path != "_id" && path != "id" && !HasPrefix(path, "$")
  }

  // ----- filters with one entry -----

  lemma OneKey(k: string)
    ensures SortedKeys({k}) == [k]
  {
    SortedKeysFacts({k});
    assert k in SortedKeys({k});
  }

  lemma NotConnective(path: string)
    requires !HasPrefix(path, "$")
    ensures path != "$or" && path != "$and"
  {
    assert "$or"[..1] == "$" && "$and"[..1] == "$";
  }

  lemma OneEntry(path: string, op: string, v: Val)
    requires HasPrefix(op, "$") && op != "$options" && !HasPrefix(path, "$")
    ensures Accepted(Single(path, op, v)) <==> TranslateEntry(path, Doc(map[op := v]), op, 0).Ok?
  {
    hide TranslateEntry;
    var ops, f := Doc(map[op := v]), Single(path, op, v);
    OneKey(path);
    OneKey(op);
    NotConnective(path);
    assert ops.fields.Keys == {op} && f.fields.Keys == {path};
    var first := TranslateEntry(path, ops, op, 0);
    var n := ArgCount(first);
    assert [op][1..] == [] && [path][1..] == [];
    assert TranslateEntries(path, ops, [], n) == Ok(Out([], []));
    assert op in ops.fields && IsOpMap(ops);
    assert TranslateKeys(f, [path], 0) == Append(TranslateKey(f, path, 0), TranslateKeys(f, [path][1..], ArgCount(TranslateKey(f, path, 0))));
  }

  lemma OneValue(path: string, v: Val)
    requires !v.VMap? && !HasPrefix(path, "$")
    ensures Accepted(Plainly(path, v)) <==> TranslateOp(path, OEq, v, 0).Ok?
  {
    hide TranslateOp;
    var f := Plainly(path, v);
    OneKey(path);
    NotConnective(path);
    assert f.fields.Keys == {path} && [path][1..] == [];
    assert TranslateKeys(f, [path], 0) == Append(TranslateKey(f, path, 0), TranslateKeys(f, [path][1..], ArgCount(TranslateKey(f, path, 0))));
  }

  /** An accepted and supported filter selects the rows that match it, where its casts are defined. */
  lemma SelectsMatches(pg: Pg, row: Row, f: Doc)
    requires Accepted(f) && Supported(f) && Casts(pg, row, f)
    ensures Selects(pg, row, f) <==> Matches(pg, row, f)
  {
    hide TranslateFilter, Supported, Casts, Matches, Parse, Eval;
    var out := TranslateFilter(f, 0).value;
    assert ArgsAt(out.args, 0, out.args) by { assert out.args[0..|out.args|] == out.args; }
    WhereMeans(pg, row, f, 0, out.args);
  }

  lemma OneField(pg: Pg, row: Row, f: Doc, path: string)
    requires f.fields.Keys == {path} && !HasPrefix(path, "$")
    ensures Supported(f) <==> SupportedField(path, f.fields[path])
    ensures Casts(pg, row, f) <==> CastsField(pg, row, path, f.fields[path])
    ensures Matches(pg, row, f) <==> MatchesField(pg, row, path, f.fields[path])
  {
    hide SupportedField, CastsField, MatchesField;
    NotConnective(path);
    assert path in f.fields;
    assert SupportedKey(f, path) == SupportedField(path, f.fields[path]);
    assert CastsKey(pg, row, f, path) == CastsField(pg, row, path, f.fields[path]);
    assert MatchesKey(pg, row, f, path) == MatchesField(pg, row, path, f.fields[path]);
  }

  /** One operator on one path. */
  lemma EntrySelects(pg: Pg, row: Row, path: string, op: string, v: Val)
    requires HasPrefix(op, "$") && op != "$options" && PlainPath(path) && !HasPrefix(path, "$")
    requires Accepted(Single(path, op, v)) && CastsEntry(pg, row, path, Doc(map[op := v]), op) && (op == "$regex" ==> !IsId(path))
    ensures Selects(pg, row, Single(path, op, v)) <==> MatchesEntry(pg, row, path, Doc(map[op := v]), op)
  {
    var ops, f := Doc(map[op := v]), Single(path, op, v);
    hide MatchesEntry, CastsEntry, TranslateFilter, Selects, Supported, Casts, Matches;
    OneField(pg, row, f, path);
    assert op in ops.fields && IsOpMap(ops) && ops.fields.Keys == {op};
    assert f.fields[path] == VMap(ops);
    SelectsMatches(pg, row, f);
  }

  lemma ValueSelects(pg: Pg, row: Row, path: string, v: Val)
    requires !v.VMap? && PlainPath(path) && !HasPrefix(path, "$")
    requires Accepted(Plainly(path, v)) && CastOk(pg, Field(row, path), v)
    ensures Selects(pg, row, Plainly(path, v)) <==> EqualTo(pg, Field(row, path), v)
  {
    var f := Plainly(path, v);
    hide EqualTo, CastOk, TranslateFilter, Selects, Supported, Casts, Matches;
    OneField(pg, row, f, path);
    SelectsMatches(pg, row, f);
  }

  // ----- fields of the document -----

  /** The operator names the lemmas below are about. */
  lemma Names()
    ensures OperatorOf("$eq") == Some(OEq) && OperatorOf("$ne") == Some(ONe)
    ensures OperatorOf("$gt") == Some(OCmp(Gt)) && OperatorOf("$gte") == Some(OCmp(Ge))
    ensures OperatorOf("$lt") == Some(OCmp(Lt)) && OperatorOf("$lte") == Some(OCmp(Le))
    ensures OperatorOf("$exists") == Some(OExists) && OperatorOf("$in") == Some(OIn) && OperatorOf("$nin") == Some(ONin)
    ensures OperatorOf("$contains") == Some(OContains) && OperatorOf("$elemMatch") == Some(OContains)
  {
  }

  /** A named comparison on a field, by what it means. */
  lemma Comparison(pg: Pg, row: Row, path: string, op: string, o: Operator, v: Val)
    requires IsField(path) && op in {"$eq", "$ne", "$gt", "$gte", "$lt", "$lte", "$exists", "$in", "$nin", "$contains", "$elemMatch"}
    requires OperatorOf(op) == Some(o)
    requires TranslateDocOp(path, o, v, 0).Ok? && CastsOp(pg, Lookup(row.doc, Split(path, '.')), o, v)
    ensures Selects(pg, row, Single(path, op, v)) <==> MeansOp(pg, Lookup(row.doc, Split(path, '.')), o, v)
  {
    hide OperatorOf, TranslateDocOp, MeansOp, CastsOp;
    assert op[0] == '$' && HasPrefix(op, "$");
    var ops := Doc(map[op := v]);
    assert TranslateEntry(path, ops, op, 0) == TranslateDocOp(path, o, v, 0);
    assert CastsEntry(pg, row, path, ops, op);
    OneEntry(path, op, v);
    EntrySelects(pg, row, path, op, v);
  }

  predicate IsScalar(v: Val) {
    v.VStr? || v.VBool? || v.VInt? || v.VFloat? || v.VDec? || v.VTime?
  }

  lemma ScalarAccepted(path: string, v: Val, o: Operator)
    requires IsScalar(v) && (o.OEq? || o.ONe? || o.OCmp?)
    ensures TranslateDocOp(path, o, v, 0).Ok?
  {
    hide TextExpr, NumExpr, TimeExpr;
  }

  /** The seven comparisons of a field with a scalar. */
  lemma ScalarsSelect(pg: Pg, row: Row, path: string, v: Val)
    requires IsField(path) && IsScalar(v) && CastOk(pg, Lookup(row.doc, Split(path, '.')), v)
    ensures var field := Lookup(row.doc, Split(path, '.'));
      && (Selects(pg, row, Plainly(path, v)) <==> EqualTo(pg, field, v))
      && (Selects(pg, row, Single(path, "$eq", v)) <==> EqualTo(pg, field, v))
      && (Selects(pg, row, Single(path, "$ne", v)) <==> !EqualTo(pg, field, v))
      && (Selects(pg, row, Single(path, "$gt", v)) <==> OrderedAs(pg, field, Gt, v))
      && (Selects(pg, row, Single(path, "$gte", v)) <==> OrderedAs(pg, field, Ge, v))
      && (Selects(pg, row, Single(path, "$lt", v)) <==> OrderedAs(pg, field, Lt, v))
      && (Selects(pg, row, Single(path, "$lte", v)) <==> OrderedAs(pg, field, Le, v))
  {
    hide Selects, Lookup, EqualTo, OrderedAs, CastOk, TranslateDocOp;
    Names();
    ScalarAccepted(path, v, OEq);
    ScalarAccepted(path, v, ONe);
    ScalarAccepted(path, v, OCmp(Gt));
    ScalarAccepted(path, v, OCmp(Ge));
    ScalarAccepted(path, v, OCmp(Lt));
    ScalarAccepted(path, v, OCmp(Le));
    OneValue(path, v);
    ValueSelects(pg, row, path, v);
    Comparison(pg, row, path, "$eq", OEq, v);
    Comparison(pg, row, path, "$ne", ONe, v);
    Comparison(pg, row, path, "$gt", OCmp(Gt), v);
    Comparison(pg, row, path, "$gte", OCmp(Ge), v);
    Comparison(pg, row, path, "$lt", OCmp(Lt), v);
    Comparison(pg, row, path, "$lte", OCmp(Le), v);
  }

  /** What is accepted on a field: comparisons with a scalar, nil as equal or unequal, presence as a
      bool, and containment of anything that can be stored.  Nothing else is. */
  lemma FieldsAccepted(path: string, v: Val)
    requires IsField(path)
    ensures !v.VMap? ==> (Accepted(Plainly(path, v)) <==> IsScalar(v) || v.VNil?)
    ensures Accepted(Single(path, "$eq", v)) <==> IsScalar(v) || v.VNil?
    ensures Accepted(Single(path, "$ne", v)) <==> IsScalar(v) || v.VNil?
    ensures Accepted(Single(path, "$gt", v)) <==> IsScalar(v)
    ensures Accepted(Single(path, "$gte", v)) <==> IsScalar(v)
    ensures Accepted(Single(path, "$lt", v)) <==> IsScalar(v)
    ensures Accepted(Single(path, "$lte", v)) <==> IsScalar(v)
    ensures Accepted(Single(path, "$exists", v)) <==> v.VBool?
    ensures Accepted(Single(path, "$contains", v)) <==> Encodable(v)
    ensures Accepted(Single(path, "$elemMatch", v)) <==> Encodable(v)
  {
    hide Accepted, OperatorOf, TranslateDocOp, Encodable;
    Names();
    if !v.VMap? { OneValue(path, v); }
    FieldAccepted(path, "$eq", OEq, v);
    FieldAccepted(path, "$ne", ONe, v);
    FieldAccepted(path, "$gt", OCmp(Gt), v);
    FieldAccepted(path, "$gte", OCmp(Ge), v);
    FieldAccepted(path, "$lt", OCmp(Lt), v);
    FieldAccepted(path, "$lte", OCmp(Le), v);
    FieldAccepted(path, "$exists", OExists, v);
    FieldAccepted(path, "$contains", OContains, v);
    FieldAccepted(path, "$elemMatch", OContains, v);
  }

  lemma FieldAccepted(path: string, op: string, o: Operator, v: Val)
    requires IsField(path) && op in {"$eq", "$ne", "$gt", "$gte", "$lt", "$lte", "$exists", "$contains", "$elemMatch"} && OperatorOf(op) == Some(o)
    ensures Accepted(Single(path, op, v)) <==> TranslateDocOp(path, o, v, 0).Ok?
    ensures TranslateDocOp(path, o, v, 0).Ok? <==>
      match o
      case OExists => v.VBool?
      case OContains => Encodable(v)
      case OCmp(_) => IsScalar(v)
      case OEq => IsScalar(v) || v.VNil?
      case ONe => IsScalar(v) || v.VNil?
      case _ => TranslateDocOp(path, o, v, 0).Ok?
  {
    hide OperatorOf, Accepted, TextExpr, JsonExpr, NumExpr, TimeExpr, Encodable;
    assert op[0] == '$' && HasPrefix(op, "$");
    OneEntry(path, op, v);
    assert TranslateEntry(path, Doc(map[op := v]), op, 0) == TranslateDocOp(path, o, v, 0);
  }

  predicate IsNumberVal(v: Val, y: real) {
    (v.VInt? && v.n as real == y) || v == VFloat(y) || v == VDec(y)
  }

  /** A field that reads as the number `x`, compared with the number `y`. */
  lemma NumbersSelect(pg: Pg, row: Row, path: string, v: Val, x: real, y: real)
    requires IsField(path) && IsNumberVal(v, y)
    requires TextAt(pg, row, path).Some? && pg.parseNum(TextAt(pg, row, path).value) == Some(x)
    ensures Selects(pg, row, Plainly(path, v)) <==> x == y
    ensures Selects(pg, row, Single(path, "$eq", v)) <==> x == y
    ensures Selects(pg, row, Single(path, "$ne", v)) <==> x != y
    ensures Selects(pg, row, Single(path, "$gt", v)) <==> x > y
    ensures Selects(pg, row, Single(path, "$gte", v)) <==> x >= y
    ensures Selects(pg, row, Single(path, "$lt", v)) <==> x < y
    ensures Selects(pg, row, Single(path, "$lte", v)) <==> x <= y
  {
    hide Selects;
    ScalarsSelect(pg, row, path, v);
  }

  /** A stored JSON number, when number text reads back as the number. */
  lemma StoredNumbersSelect(pg: Pg, row: Row, path: string, v: Val, x: real, y: real)
    requires IsField(path) && IsNumberVal(v, y) && NumbersRoundTrip(pg)
    requires Lookup(row.doc, Split(path, '.')) == Some(JNum(x))
    ensures Selects(pg, row, Single(path, "$gt", v)) <==> x > y
    ensures Selects(pg, row, Single(path, "$lt", v)) <==> x < y
    ensures Selects(pg, row, Plainly(path, v)) <==> x == y
  {
    hide Selects;
    NumbersSelect(pg, row, path, v, x, y);
  }

  /** A field that reads as the instant `u`, compared with a time. */
  lemma TimesSelect(pg: Pg, row: Row, path: string, t: int, text: string, u: int)
    requires IsField(path) && TextAt(pg, row, path).Some? && pg.parseTime(TextAt(pg, row, path).value) == Some(u)
    ensures Selects(pg, row, Plainly(path, VTime(t, text))) <==> u == t
    ensures Selects(pg, row, Single(path, "$eq", VTime(t, text))) <==> u == t
    ensures Selects(pg, row, Single(path, "$ne", VTime(t, text))) <==> u != t
    ensures Selects(pg, row, Single(path, "$gt", VTime(t, text))) <==> u > t
    ensures Selects(pg, row, Single(path, "$gte", VTime(t, text))) <==> u >= t
    ensures Selects(pg, row, Single(path, "$lt", VTime(t, text))) <==> u < t
    ensures Selects(pg, row, Single(path, "$lte", VTime(t, text))) <==> u <= t
  {
    hide Selects;
    var v := VTime(t, text);
    ScalarsSelect(pg, row, path, v);
  }

  /** What a string or a bool is compared as. */
  predicate IsTextVal(v: Val, s: string) {
    v == VStr(s) || (v == VBool(true) && s == "true") || (v == VBool(false) && s == "false")
  }

  /** A field with the text `t`, compared with a text; only the order is the collation's. */
  lemma TextsSelect(pg: Pg, row: Row, path: string, v: Val, t: string, s: string)
    requires IsField(path) && IsTextVal(v, s) && TextAt(pg, row, path) == Some(t)
    ensures Selects(pg, row, Plainly(path, v)) <==> t == s
    ensures Selects(pg, row, Single(path, "$eq", v)) <==> t == s
    ensures Selects(pg, row, Single(path, "$ne", v)) <==> t != s
    ensures Selects(pg, row, Single(path, "$gt", v)) <==> pg.collate(t, s) > 0
    ensures Selects(pg, row, Single(path, "$gte", v)) <==> pg.collate(t, s) >= 0
    ensures Selects(pg, row, Single(path, "$lt", v)) <==> pg.collate(t, s) < 0
    ensures Selects(pg, row, Single(path, "$lte", v)) <==> pg.collate(t, s) <= 0
  {
    hide Selects;
    ScalarsSelect(pg, row, path, v);
  }

  /** Text as it is stored: the string itself, `true` and `false`. */
  lemma StoredTexts(pg: Pg, row: Row, path: string)
    ensures forall s :: Lookup(row.doc, Split(path, '.')) == Some(JStr(s)) ==> TextAt(pg, row, path) == Some(s)
    ensures Lookup(row.doc, Split(path, '.')) == Some(JBool(true)) ==> TextAt(pg, row, path) == Some("true")
    ensures Lookup(row.doc, Split(path, '.')) == Some(JBool(false)) ==> TextAt(pg, row, path) == Some("false")
    ensures TextAt(pg, row, path).None? <==> Lookup(row.doc, Split(path, '.')) in {None, Some(JNull)}
  {
  }

  /** An absent or null field fails every comparison but `$ne`. */
  lemma MissingSelects(pg: Pg, row: Row, path: string, v: Val)
    requires IsField(path) && IsScalar(v) && TextAt(pg, row, path).None?
    ensures !Selects(pg, row, Plainly(path, v)) && !Selects(pg, row, Single(path, "$eq", v)) && Selects(pg, row, Single(path, "$ne", v))
    ensures !Selects(pg, row, Single(path, "$gt", v)) && !Selects(pg, row, Single(path, "$gte", v))
    ensures !Selects(pg, row, Single(path, "$lt", v)) && !Selects(pg, row, Single(path, "$lte", v))
  {
    hide Selects;
    ScalarsSelect(pg, row, path, v);
  }

  /** nil is absent or null; `$exists` is about absence alone. */
  lemma PresenceSelects(pg: Pg, row: Row, path: string)
    requires IsField(path)
    ensures var field := Lookup(row.doc, Split(path, '.'));
      && (Selects(pg, row, Plainly(path, VNil)) <==> field in {None, Some(JNull)})
      && (Selects(pg, row, Single(path, "$eq", VNil)) <==> field in {None, Some(JNull)})
      && (Selects(pg, row, Single(path, "$ne", VNil)) <==> field !in {None, Some(JNull)})
      && (Selects(pg, row, Single(path, "$exists", VBool(true))) <==> field != None)
      && (Selects(pg, row, Single(path, "$exists", VBool(false))) <==> field == None)
  {
    hide Selects;
    Names();
    OneValue(path, VNil);
    ValueSelects(pg, row, path, VNil);
    Comparison(pg, row, path, "$eq", OEq, VNil);
    Comparison(pg, row, path, "$ne", ONe, VNil);
    Comparison(pg, row, path, "$exists", OExists, VBool(true));
    Comparison(pg, row, path, "$exists", OExists, VBool(false));
  }

  function StringVals(ss: seq<string>): Val {
    VList(seq(|ss|, i requires 0 <= i < |ss| => VStr(ss[i])))
  }

  lemma StringElems(ss: seq<string>)
    ensures ElemsOf(StringVals(ss)) == ElemsOf(VStrs(ss)) && StringList(StringVals(ss)) == Ok(ss)
  {
    assert StringList(StringVals(ss)).value == ss;
  }

  /** `$in` and `$nin` over a list of strings, in either of its Go types. */
  lemma TextListsSelect(pg: Pg, row: Row, path: string, ss: seq<string>)
    requires IsField(path)
    ensures var t := TextAt(pg, row, path);
      && (Selects(pg, row, Single(path, "$in", VStrs(ss))) <==> t.Some? && t.value in ss)
      && (Selects(pg, row, Single(path, "$nin", VStrs(ss))) <==> t.None? || t.value !in ss)
      && (Selects(pg, row, Single(path, "$in", StringVals(ss))) <==> t.Some? && t.value in ss)
      && (Selects(pg, row, Single(path, "$nin", StringVals(ss))) <==> t.None? || t.value !in ss)
  {
    hide Selects;
    Names();
    StringElems(ss);
    TextList(ElemsOf(VStrs(ss)), ss, pg, Lookup(row.doc, Split(path, '.')));
    Comparison(pg, row, path, "$in", OIn, VStrs(ss));
    Comparison(pg, row, path, "$nin", ONin, VStrs(ss));
    Comparison(pg, row, path, "$in", OIn, StringVals(ss));
    Comparison(pg, row, path, "$nin", ONin, StringVals(ss));
  }

  function NumberVals(ns: seq<int>): Val {
    VList(seq(|ns|, i requires 0 <= i < |ns| => VInt(ns[i])))
  }

  lemma NumberElems(path: string, ns: seq<int>)
    ensures InList(path, NumberVals(ns)).Ok? && |ElemsOf(NumberVals(ns))| == |ns|
    ensures forall i :: 0 <= i < |ns| ==> ElemsOf(NumberVals(ns))[i] == VInt(ns[i])
  {
  }

  /** `$in` and `$nin` over a list of numbers. */
  lemma NumberListsSelect(pg: Pg, row: Row, path: string, ns: seq<int>, x: real)
    requires IsField(path) && TextAt(pg, row, path).Some? && pg.parseNum(TextAt(pg, row, path).value) == Some(x)
    ensures Selects(pg, row, Single(path, "$in", NumberVals(ns))) <==> exists i :: 0 <= i < |ns| && x == ns[i] as real
    ensures Selects(pg, row, Single(path, "$nin", NumberVals(ns))) <==> forall i :: 0 <= i < |ns| ==> x != ns[i] as real
  {
    var es, field := NumberVals(ns), Lookup(row.doc, Split(path, '.'));
    hide Selects, NumberVals, InList;
    Names();
    NumberElems(path, ns);
    forall i | 0 <= i < |ns| ensures EqualTo(pg, field, ElemsOf(es)[i]) <==> x == ns[i] as real {}
    Comparison(pg, row, path, "$in", OIn, es);
    Comparison(pg, row, path, "$nin", ONin, es);
    if i :| 0 <= i < |ns| && x == ns[i] as real { assert EqualTo(pg, field, ElemsOf(es)[i]); }
  }

  /** `$contains` and `$elemMatch` ask for containment of the one-element array. */
  lemma ContainsSelects(pg: Pg, row: Row, path: string, v: Val)
    requires IsField(path) && Encodable(v)
    ensures var field := Lookup(row.doc, Split(path, '.'));
      && (Selects(pg, row, Single(path, "$contains", v)) <==> field.Some? && pg.contains(field.value, JArr([Encode(v)])))
      && (Selects(pg, row, Single(path, "$elemMatch", v)) <==> field.Some? && pg.contains(field.value, JArr([Encode(v)])))
  {
    hide Selects, Encode, Encodable;
    Names();
    Comparison(pg, row, path, "$contains", OContains, v);
    Comparison(pg, row, path, "$elemMatch", OContains, v);
  }

  /** `{path: {"$regex": pattern, "$options": options}}`. */
  function Pattern(path: string, pattern: string, options: Val): Doc {
    Doc(map[path := VMap(Doc(map["$regex" := VStr(pattern), "$options" := options]))])
  }

  lemma {:induction false} EntriesAccepted(path: string, ops: Doc, keys: seq<string>, n: nat)
    requires forall k :: k in keys ==> k in ops.fields && TranslateEntry(path, ops, k, 0).Ok?
    ensures TranslateEntries(path, ops, keys, n).Ok?
  {
    hide TranslateEntry;
    if keys != [] {
      EntryOkIsUniform(path, ops, keys[0], 0, n);
      EntriesAccepted(path, ops, keys[1..], n + ArgCount(TranslateEntry(path, ops, keys[0], n)));
    }
  }

  /** An operator map is accepted when each of its operators is. */
  lemma OpsAccepted(path: string, ops: Doc)
    requires IsOpMap(ops) && !HasPrefix(path, "$")
    requires forall k :: k in ops.fields ==> TranslateEntry(path, ops, k, 0).Ok?
    ensures Accepted(Doc(map[path := VMap(ops)]))
  {
    hide TranslateEntry, TranslateEntries;
    var f := Doc(map[path := VMap(ops)]);
    OneKey(path);
    NotConnective(path);
    assert f.fields.Keys == {path} && [path][1..] == [];
    SortedKeysFacts(ops.fields.Keys);
    EntriesAccepted(path, ops, SortedKeys(ops.fields.Keys), 0);
    assert TranslateKeys(f, [path], 0) == Append(TranslateKey(f, path, 0), TranslateKeys(f, [path][1..], ArgCount(TranslateKey(f, path, 0))));
  }

  /** `$regex`: case counts unless the options are a string with an `i` in it. */
  lemma RegexSelects(pg: Pg, row: Row, path: string, pattern: string, options: string)
    requires IsField(path)
    ensures var t := TextAt(pg, row, path);
      && (Selects(pg, row, Single(path, "$regex", VStr(pattern))) <==> t.Some? && pg.regex(t.value, pattern, false))
      && (Selects(pg, row, Pattern(path, pattern, VStr(options))) <==> t.Some? && pg.regex(t.value, pattern, 'i' in options))
  {
    hide Selects, TextExpr, Accepted;
    assert "$regex"[0] == '$' && HasPrefix("$regex", "$");
    OneEntry(path, "$regex", VStr(pattern));
    EntrySelects(pg, row, path, "$regex", VStr(pattern));
    PatternSelects(pg, row, path, pattern, VStr(options));
  }

  lemma PatternSelects(pg: Pg, row: Row, path: string, pattern: string, options: Val)
    requires IsField(path)
    ensures Selects(pg, row, Pattern(path, pattern, options)) <==> MatchesRegex(pg, row, path, VStr(pattern), Some(options))
  {
    hide Selects, TextExpr, MatchesRegex, IgnoreCase, Supported, Casts, Matches, Accepted;
    assert "$regex"[0] == '$' && HasPrefix("$regex", "$") && "$options" != "$regex";
    var ops, f := Doc(map["$regex" := VStr(pattern), "$options" := options]), Pattern(path, pattern, options);
    assert "$regex" in ops.fields && "$options" in ops.fields && IsOpMap(ops);
    OpsAccepted(path, ops);
    OneField(pg, row, f, path);
    assert f.fields[path] == VMap(ops);
    assert MatchesField(pg, row, path, VMap(ops)) <==> MatchesEntry(pg, row, path, ops, "$regex");
    SelectsMatches(pg, row, f);
  }

  // ----- the id column -----

  lemma OnId(pg: Pg, row: Row, path: string, op: string, o: Operator, v: Val)
    requires path == "_id" || path == "id"
    requires op in {"$eq", "$ne", "$gt", "$gte", "$lt", "$lte", "$exists", "$in", "$nin", "$contains", "$elemMatch"} && OperatorOf(op) == Some(o)
    ensures Accepted(Single(path, op, v)) <==> TranslateId(o, v, 0).Ok?
    ensures Accepted(Single(path, op, v)) && CastsOp(pg, Some(JStr(row.id)), o, v) ==>
      (Selects(pg, row, Single(path, op, v)) <==> MeansOp(pg, Some(JStr(row.id)), o, v))
  {
    hide OperatorOf, TranslateId, MeansOp, CastsOp, Selects;
    assert op[0] == '$' && HasPrefix(op, "$");
    SplitSingle(path, '.');
    var ops := Doc(map[op := v]);
    assert !HasPrefix(path, "$") && PlainPath(path);
    assert TranslateEntry(path, ops, op, 0) == TranslateId(o, v, 0);
    OneEntry(path, op, v);
    if Accepted(Single(path, op, v)) && CastsOp(pg, Some(JStr(row.id)), o, v) {
      assert CastsEntry(pg, row, path, ops, op);
      EntrySelects(pg, row, path, op, v);
    }
  }

  /** Both names of the id address the id column, which takes strings only and is never absent. */
  lemma IdSelects(pg: Pg, row: Row, path: string, s: string)
    requires path == "_id" || path == "id"
    ensures Selects(pg, row, Plainly(path, VStr(s))) <==> row.id == s
    ensures Selects(pg, row, Single(path, "$eq", VStr(s))) <==> row.id == s
    ensures Selects(pg, row, Single(path, "$ne", VStr(s))) <==> row.id != s
    ensures Selects(pg, row, Single(path, "$gt", VStr(s))) <==> pg.collate(row.id, s) > 0
    ensures Selects(pg, row, Single(path, "$gte", VStr(s))) <==> pg.collate(row.id, s) >= 0
    ensures Selects(pg, row, Single(path, "$lt", VStr(s))) <==> pg.collate(row.id, s) < 0
    ensures Selects(pg, row, Single(path, "$lte", VStr(s))) <==> pg.collate(row.id, s) <= 0
  {
    hide Selects, Accepted;
    Names();
    SplitSingle(path, '.');
    OneValue(path, VStr(s));
    ValueSelects(pg, row, path, VStr(s));
    OnId(pg, row, path, "$eq", OEq, VStr(s));
    OnId(pg, row, path, "$ne", ONe, VStr(s));
    OnId(pg, row, path, "$gt", OCmp(Gt), VStr(s));
    OnId(pg, row, path, "$gte", OCmp(Ge), VStr(s));
    OnId(pg, row, path, "$lt", OCmp(Lt), VStr(s));
    OnId(pg, row, path, "$lte", OCmp(Le), VStr(s));
  }

  /** What the id column is not compared with: anything but a string, or absence or containment. */
  lemma IdRefuses(pg: Pg, row: Row, path: string, op: string, v: Val)
    requires path == "_id" || path == "id"
    requires op in {"$exists", "$contains", "$elemMatch"} || (op in {"$eq", "$ne", "$gt", "$gte", "$lt", "$lte"} && !v.VStr?)
    ensures !Accepted(Single(path, op, v))
  {
    hide Selects, Accepted;
    Names();
    OnId(pg, row, path, op, OperatorOf(op).value, v);
  }

  lemma IdListsSelect(pg: Pg, row: Row, path: string, ss: seq<string>)
    requires path == "_id" || path == "id"
    ensures Selects(pg, row, Single(path, "$in", VStrs(ss))) <==> row.id in ss
    ensures Selects(pg, row, Single(path, "$nin", VStrs(ss))) <==> row.id !in ss
  {
    hide Selects, Accepted;
    Names();
    TextList(ElemsOf(VStrs(ss)), ss, pg, Some(JStr(row.id)));
    OnId(pg, row, path, "$in", OIn, VStrs(ss));
    OnId(pg, row, path, "$nin", ONin, VStrs(ss));
  }

  /** Any other operator is refused, and so is any other key that starts with a dollar sign. */
  lemma UnknownRefused(path: string, op: string, v: Val)
    requires HasPrefix(op, "$")
    ensures op !in {"$or", "$and"} ==> !Accepted(Plainly(op, v))
    ensures !HasPrefix(path, "$") && op !in {"$eq", "$ne", "$gt", "$gte", "$lt", "$lte", "$exists", "$in", "$nin", "$contains", "$elemMatch", "$regex", "$options"} ==>
      !Accepted(Single(path, op, v))
  {
    OneKey(op);
    var f := Plainly(op, v);
    assert f.fields.Keys == {op};
    assert TranslateKeys(f, [op], 0) == Append(TranslateKey(f, op, 0), TranslateKeys(f, [op][1..], ArgCount(TranslateKey(f, op, 0))));
    if !HasPrefix(path, "$") && op != "$options" { OneEntry(path, op, v); }
  }

  /** `$regex` takes a string, and the connectives a list of filters that is not empty. */
  lemma WrongValuesRefused(path: string, v: Val)
    requires IsField(path)
    ensures !v.VStr? ==> !Accepted(Single(path, "$regex", v))
    ensures v == VMaps([]) || v == VList([]) || !(v.VMaps? || v.VList?) ==> !Accepted(Plainly("$or", v)) && !Accepted(Plainly("$and", v))
  {
    hide Accepted;
    assert "$regex"[0] == '$' && HasPrefix("$regex", "$");
    OneEntry(path, "$regex", v);
    if v == VMaps([]) || v == VList([]) || !(v.VMaps? || v.VList?) {
      WrongList("$or", v);
      WrongList("$and", v);
    }
  }

  lemma WrongList(k: string, v: Val)
    requires k in {"$or", "$and"} && (v == VMaps([]) || v == VList([]) || !(v.VMaps? || v.VList?))
    ensures !Accepted(Plainly(k, v))
  {
    OneKey(k);
    var f := Plainly(k, v);
    assert f.fields.Keys == {k};
    assert TranslateKeys(f, [k], 0) == Append(TranslateKey(f, k, 0), TranslateKeys(f, [k][1..], ArgCount(TranslateKey(f, k, 0))));
  }

  // ----- the connectives -----

  lemma {:induction false} SubsAccepted(v: Val, i: nat, n: nat)
    requires IsFilterList(v) && i <= SubCount(v)
    requires forall j :: 0 <= j < SubCount(v) ==> Accepted(Sub(v, j))
    ensures TranslateSubs(v, i, n).Ok?
    decreases SubCount(v) - i
  {
    hide TranslateFilter;
    if i < SubCount(v) {
      assert Accepted(Sub(v, i));
      OkIsUniform(Sub(v, i), 0, n);
      SubsAccepted(v, i + 1, n + ArgCount(match TranslateFilter(Sub(v, i), n)
                                            case Err(e) => Err(e)
                                            case Ok(out) => One(Group(MkAnd(out.parts)), out.args)));
    }
  }

  /** `$or` and `$and` over accepted filters whose casts are defined: the rows some, or all, of them select. */
  lemma ConnectivesSelect(pg: Pg, row: Row, fs: seq<Doc>)
    requires fs != [] && forall i :: 0 <= i < |fs| ==> Accepted(fs[i]) && Supported(fs[i]) && Casts(pg, row, fs[i])
    ensures Selects(pg, row, Doc(map["$or" := VMaps(fs)])) <==> exists i :: 0 <= i < |fs| && Selects(pg, row, fs[i])
    ensures Selects(pg, row, Doc(map["$and" := VMaps(fs)])) <==> forall i :: 0 <= i < |fs| ==> Selects(pg, row, fs[i])
  {
    hide Selects, TranslateFilter;
    forall i | 0 <= i < |fs| ensures Selects(pg, row, fs[i]) <==> Matches(pg, row, fs[i]) { SelectsMatches(pg, row, fs[i]); }
    ConnectiveMatches(pg, row, fs, "$or");
    ConnectiveMatches(pg, row, fs, "$and");
    var v := VMaps(fs);
    assert forall i :: 0 <= i < |fs| ==> Sub(v, i) == fs[i];
    assert "$and"[1] != "$or"[1];
    assert MatchesKey(pg, row, Doc(map["$or" := v]), "$or") <==> exists i :: 0 <= i < SubCount(v) && Matches(pg, row, Sub(v, i));
    assert MatchesKey(pg, row, Doc(map["$and" := v]), "$and") <==> forall i :: 0 <= i < SubCount(v) ==> Matches(pg, row, Sub(v, i));
  }

  lemma ConnectiveMatches(pg: Pg, row: Row, fs: seq<Doc>, k: string)
    requires k in {"$or", "$and"} && fs != []
    requires forall i :: 0 <= i < |fs| ==> Accepted(fs[i]) && Supported(fs[i]) && Casts(pg, row, fs[i])
    ensures var f := Doc(map[k := VMaps(fs)]); Selects(pg, row, f) <==> MatchesKey(pg, row, f, k)
  {
    hide Selects, TranslateFilter, TranslateSubs;
    var v, f := VMaps(fs), Doc(map[k := VMaps(fs)]);
    forall i | 0 <= i < SubCount(v) ensures Accepted(Sub(v, i)) && Supported(Sub(v, i)) && Casts(pg, row, Sub(v, i)) { assert Sub(v, i) == fs[i]; }
    assert Accepted(f) by { ConnectiveAccepted(f, k); }
    assert k in f.fields && SupportedKey(f, k) && CastsKey(pg, row, f, k);
    assert Supported(f) && Casts(pg, row, f);
    assert Matches(pg, row, f) <==> MatchesKey(pg, row, f, k);
    SelectsMatches(pg, row, f);
  }

  lemma ConnectiveAccepted(f: Doc, k: string)
    requires k in {"$or", "$and"} && f.fields.Keys == {k} && IsFilterList(f.fields[k]) && SubCount(f.fields[k]) > 0
    requires forall j :: 0 <= j < SubCount(f.fields[k]) ==> Accepted(Sub(f.fields[k], j))
    ensures Accepted(f)
  {
    hide TranslateSubs;
    OneKey(k);
    SubsAccepted(f.fields[k], 0, 0);
    assert [k][1..] == [];
    assert TranslateKeys(f, [k], 0) == Append(TranslateKey(f, k, 0), TranslateKeys(f, [k][1..], ArgCount(TranslateKey(f, k, 0))));
  }
}
