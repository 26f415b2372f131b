/** `translateFilter`: document filters to SQL conditions, the conventions they are meant to
    follow, and the proof that the SQL selects exactly the documents the filter describes. */
module Filter {
  import opened Base
  import opened Ordering
  import opened Sql

  /** A Go `any` as it occurs in filters.  Named scalar kinds are their underlying kind; a
      time carries the text it is stored as; `Other` is any value with no comparison. */
  datatype Val =
    | VNil
    | VStr(s: string)
    | VBool(b: bool)
    | VInt(n: int)
    | VFloat(x: real)
    | VDec(d: real)
    | VTime(t: int, text: string)
    | VStrs(ss: seq<string>)
    | VList(elems: seq<Val>)
    | VMap(f: Doc)
    | VMaps(fs: seq<Doc>)
    | VOther

  /** The map type `M`, used for filters and for operator maps. */
  datatype Doc = Doc(fields: map<string, Val>)

  datatype Operator = OEq | ONe | OCmp(c: Cmp) | OExists | OIn | ONin | OContains

  function OperatorOf(op: string): Option<Operator> {
    match op
    case "$eq" => Some(OEq)
    case "$ne" => Some(ONe)
    case "$gt" => Some(OCmp(Gt))
    case "$gte" => Some(OCmp(Ge))
    case "$lt" => Some(OCmp(Lt))
    case "$lte" => Some(OCmp(Le))
    case "$exists" => Some(OExists)
    case "$in" => Some(OIn)
    case "$nin" => Some(ONin)
    case "$contains" => Some(OContains)
    case "$elemMatch" => Some(OContains)
    case _ => None
  }

  /** Rendered conditions, to be joined by AND, and the arguments they bind. */
  datatype Out = Out(parts: seq<Expr>, args: seq<V>)

  predicate IsId(path: string) {
    path == "_id" || path == "id"
  }

  // ----- stored form of a value (`encodeValue`) -----

  predicate Encodable(v: Val) {
    match v
    case VOther => false
    case VList(es) => forall i :: 0 <= i < |es| ==> Encodable(es[i])
    case VMap(f) => forall k :: k in f.fields ==> Encodable(f.fields[k])
    case VMaps(fs) => forall i :: 0 <= i < |fs| ==> forall k :: k in fs[i].fields ==> Encodable(fs[i].fields[k])
    case _ => true
  }

  function Encode(v: Val): Json
    decreases v, 0
  {
    match v
    case VNil => JNull
    case VStr(s) => JStr(s)
    case VBool(b) => JBool(b)
    case VInt(n) => JNum(n as real)
    case VFloat(x) => JNum(x)
    case VDec(d) => JNum(d)
    case VTime(_, text) => JStr(text)
    case VStrs(ss) => JArr(seq(|ss|, i requires 0 <= i < |ss| => JStr(ss[i])))
    case VList(es) => JArr(seq(|es|, i requires 0 <= i < |es| => Encode(es[i])))
    case VMap(f) => EncodeDoc(f)
    case VMaps(fs) => JArr(seq(|fs|, i requires 0 <= i < |fs| => EncodeDoc(fs[i])))
    case VOther => JNull
  }

  function EncodeDoc(f: Doc): Json
    decreases f, 0
  {
    JObj(map k | k in f.fields :: Encode(f.fields[k]))
  }

  // ----- the conventions (reference semantics) -----

  /** What a path addresses: the id column, or a field of the document. */
  function Field(row: Row, path: string): Option<Json> {
    if IsId(path) then Some(JStr(row.id)) else Lookup(row.doc, Split(path, '.'))
  }

  function AsNum(pg: Pg, field: Option<Json>): Option<real> {
    match AsText(pg, field) case None => None case Some(s) => pg.parseNum(s)
  }

  function AsTime(pg: Pg, field: Option<Json>): Option<int> {
    match AsText(pg, field) case None => None case Some(s) => pg.parseTime(s)
  }

  predicate EqualTo(pg: Pg, field: Option<Json>, v: Val) {
    match v
    case VNil => field == None || field == Some(JNull)
    case VStr(s) => AsText(pg, field) == Some(s)
    case VBool(b) => AsText(pg, field) == Some(BoolText(b))
    case VInt(n) => AsNum(pg, field) == Some(n as real)
    case VFloat(x) => AsNum(pg, field) == Some(x)
    case VDec(d) => AsNum(pg, field) == Some(d)
    case VTime(t, _) => AsTime(pg, field) == Some(t)
    case _ => false
  }

  predicate OrderedAs(pg: Pg, field: Option<Json>, c: Cmp, v: Val) {
    match v
    case VStr(s) => AsText(pg, field).Some? && Holds(c, pg.collate(AsText(pg, field).value, s))
    case VBool(b) => AsText(pg, field).Some? && Holds(c, pg.collate(AsText(pg, field).value, BoolText(b)))
    case VInt(n) => AsNum(pg, field).Some? && Holds(c, Sign(AsNum(pg, field).value, n as real))
    case VFloat(x) => AsNum(pg, field).Some? && Holds(c, Sign(AsNum(pg, field).value, x))
    case VDec(d) => AsNum(pg, field).Some? && Holds(c, Sign(AsNum(pg, field).value, d))
    case VTime(t, _) => AsTime(pg, field).Some? && Holds(c, AsTime(pg, field).value - t)
    case _ => false
  }

  /** `anyList`: anything that is not a list counts as the empty list. */
  function ElemsOf(v: Val): seq<Val> {
    match v
    case VList(es) => es
    case VStrs(ss) => seq(|ss|, i requires 0 <= i < |ss| => VStr(ss[i]))
    case _ => []
  }

  predicate Among(pg: Pg, field: Option<Json>, es: seq<Val>) {
    exists i :: 0 <= i < |es| && EqualTo(pg, field, es[i])
  }

  predicate MeansOp(pg: Pg, field: Option<Json>, op: Operator, v: Val) {
    match op
    case OEq => EqualTo(pg, field, v)
    case ONe => !EqualTo(pg, field, v)
    case OCmp(c) => OrderedAs(pg, field, c, v)
    case OExists => v.VBool? && v.b == field.Some?
    case OIn => Among(pg, field, ElemsOf(v))
    case ONin => !Among(pg, field, ElemsOf(v))
    case OContains => field.Some? && pg.contains(field.value, JArr([Encode(v)]))
  }

  predicate IgnoreCase(options: Option<Val>) {
    options.Some? && options.value.VStr? && 'i' in options.value.s
  }

  function Get(f: Doc, k: string): Option<Val> {
    if k in f.fields then Some(f.fields[k]) else None
  }

  predicate MatchesRegex(pg: Pg, row: Row, path: string, pattern: Val, options: Option<Val>) {
    var t := AsText(pg, Field(row, path));
    pattern.VStr? && t.Some? && pg.regex(t.value, pattern.s, IgnoreCase(options))
  }

  /** `isOpMap` looks at one key.  On a map whose keys all or none start with `$` that is the
      same as looking at all of them; on any other the translation fails whatever it sees. */
  predicate IsOpMap(f: Doc) {
    exists k :: k in f.fields && HasPrefix(k, "$")
  }

  predicate MatchesEntry(pg: Pg, row: Row, path: string, ops: Doc, op: string)
    requires op in ops.fields
  {
    if op == "$options" then true
    else if op == "$regex" then MatchesRegex(pg, row, path, ops.fields[op], Get(ops, "$options"))
    else OperatorOf(op).Some? && MeansOp(pg, Field(row, path), OperatorOf(op).value, ops.fields[op])
  }

  predicate MatchesField(pg: Pg, row: Row, path: string, v: Val) {
    if v.VMap? && IsOpMap(v.f) then forall op :: op in v.f.fields ==> MatchesEntry(pg, row, path, v.f, op)
    else EqualTo(pg, Field(row, path), v)
  }

  /** The sub-filters of `$or`/`$and`: a list of maps in either of its two Go types. */
  predicate IsFilterList(v: Val) {
    v.VMaps? || (v.VList? && forall i :: 0 <= i < |v.elems| ==> v.elems[i].VMap?)
  }

  function SubCount(v: Val): nat
    requires IsFilterList(v)
  {
    if v.VMaps? then |v.fs| else |v.elems|
  }

  function Sub(v: Val, i: nat): Doc
    requires IsFilterList(v) && i < SubCount(v)
  {
    if v.VMaps? then v.fs[i] else v.elems[i].f
  }

  /** A document matches when every entry of the filter holds; `$or`/`$and` nest. */
  ghost predicate Matches(pg: Pg, row: Row, f: Doc)
    decreases f, 0
  {
    forall k :: k in f.fields ==> MatchesKey(pg, row, f, k)
  }

  ghost predicate MatchesKey(pg: Pg, row: Row, f: Doc, k: string)
    requires k in f.fields
    decreases f, 0, k
  {
    var v := f.fields[k];
    if k == "$or" then IsFilterList(v) && exists i :: 0 <= i < SubCount(v) && Matches(pg, row, Sub(v, i))
    else if k == "$and" then IsFilterList(v) && forall i :: 0 <= i < SubCount(v) ==> Matches(pg, row, Sub(v, i))
    else MatchesField(pg, row, k, v)
  }

  // ----- when the casts in a condition are defined -----

  predicate NumOk(pg: Pg, field: Option<Json>) {
    AsText(pg, field).Some? ==> AsNum(pg, field).Some?
  }

  predicate CastOk(pg: Pg, field: Option<Json>, v: Val) {
    match v
    case VInt(_) => NumOk(pg, field)
    case VFloat(_) => NumOk(pg, field)
    case VDec(_) => NumOk(pg, field)
    case VTime(_, _) => AsText(pg, field).Some? ==> AsTime(pg, field).Some?
    case _ => true
  }

  predicate CastsOp(pg: Pg, field: Option<Json>, op: Operator, v: Val) {
    match op
    case OEq => CastOk(pg, field, v)
    case ONe => CastOk(pg, field, v)
    case OCmp(_) => CastOk(pg, field, v)
    case OExists => true
    case OContains => true
    case _ => NumericList(v) ==> NumOk(pg, field)
  }

  predicate NumericList(v: Val) {
    ElemsOf(v) != [] && !ElemsOf(v)[0].VStr?
  }

  predicate CastsEntry(pg: Pg, row: Row, path: string, ops: Doc, op: string)
    requires op in ops.fields
  {
    op == "$options" || op == "$regex" || OperatorOf(op).None? || CastsOp(pg, Field(row, path), OperatorOf(op).value, ops.fields[op])
  }

  predicate CastsField(pg: Pg, row: Row, path: string, v: Val) {
    if v.VMap? && IsOpMap(v.f) then forall op :: op in v.f.fields ==> CastsEntry(pg, row, path, v.f, op)
    else CastOk(pg, Field(row, path), v)
  }

  ghost predicate Casts(pg: Pg, row: Row, f: Doc)
    decreases f, 0
  {
    forall k :: k in f.fields ==> CastsKey(pg, row, f, k)
  }

  ghost predicate CastsKey(pg: Pg, row: Row, f: Doc, k: string)
    requires k in f.fields
    decreases f, 0, k
  {
    var v := f.fields[k];
    if k == "$or" || k == "$and" then
      IsFilterList(v) ==> forall i :: 0 <= i < SubCount(v) ==> Casts(pg, row, Sub(v, i))
    else CastsField(pg, row, k, v)
  }

  // ----- filters the conventions speak about -----

  /** Every dotted path is plain, `$options` accompanies `$regex`, and `$regex` is not used
      on the id (where the code reads a document field instead of the id column). */
  predicate SupportedField(path: string, v: Val) {
    && PlainPath(path)
    && (v.VMap? && IsOpMap(v.f) ==>
          && ("$options" in v.f.fields ==> "$regex" in v.f.fields)
          && ("$regex" in v.f.fields ==> !IsId(path)))
  }

  ghost predicate Supported(f: Doc)
    decreases f, 0
  {
    forall k :: k in f.fields ==> SupportedKey(f, k)
  }

  ghost predicate SupportedKey(f: Doc, k: string)
    requires k in f.fields
    decreases f, 0, k
  {
    var v := f.fields[k];
    if k == "$or" || k == "$and" then
      IsFilterList(v) ==> forall i :: 0 <= i < SubCount(v) ==> Supported(Sub(v, i))
    else SupportedField(k, v)
  }

  // ----- the translator -----

  function NumExpr(path: string): Expr {
    Cast(Group(TextExpr(path)), Numeric)
  }

  function TimeExpr(path: string): Expr {
    Cast(Group(TextExpr(path)), Timestamptz)
  }

  /** `typedExpr`: the extraction and cast for a comparison value, and the bound argument. */
  function TypedExpr(path: string, v: Val): Result<(Expr, V)> {
    match v
    case VStr(s) => Ok((TextExpr(path), Text(s)))
    case VBool(b) => Ok((TextExpr(path), Text(BoolText(b))))
    case VInt(n) => Ok((NumExpr(path), Num(n as real)))
    case VFloat(x) => Ok((NumExpr(path), Num(x)))
    case VDec(d) => Ok((NumExpr(path), Num(d)))
    case VTime(t, _) => Ok((TimeExpr(path), Time(t)))
    case _ => Err("unsupported comparison value")
  }

  /** `stringList`. */
  function StringList(v: Val): Result<seq<string>> {
    match v
    case VStrs(ss) => Ok(ss)
    case VList(es) =>
      if forall i :: 0 <= i < |es| ==> es[i].VStr? then Ok(seq(|es|, i requires 0 <= i < |es| && es[i].VStr? => es[i].s))
      else Err("want strings")
    case _ => Err("want a string list")
  }

  predicate IsNumber(v: Val) {
    v.VInt? || v.VFloat?
  }

  function NumberOf(v: Val): real
    requires IsNumber(v)
  {
    if v.VInt? then v.n as real else v.x
  }

  /** `inList`: the element type of `$in`/`$nin` comes from the first element. */
  function InList(path: string, v: Val): Result<(Expr, V)> {
    var es := ElemsOf(v);
    if es == [] then Ok((TextExpr(path), Texts([])))
    else if es[0].VStr? then
      match StringList(v) case Ok(ss) => Ok((TextExpr(path), Texts(ss))) case Err(e) => Err(e)
    else if IsNumber(es[0]) then
      if forall i :: 0 <= i < |es| ==> IsNumber(es[i]) then
        Ok((NumExpr(path), Nums(seq(|es|, i requires 0 <= i < |es| && IsNumber(es[i]) => NumberOf(es[i])))))
      else Err("mixed $in element types")
    else Err("unsupported $in element type")
  }

  /** `field IS NULL OR field = 'null'::jsonb`. */
  function AbsentOrNull(path: string): Expr {
    Group(Or([IsNull(JsonExpr(path), true), Compare(Eq, JsonExpr(path), Cast(Str("null"), Jsonb))]))
  }

  function One(e: Expr, args: seq<V>): Result<Out> {
    Ok(Out([e], args))
  }

  /** `idOp`; `n` is the number of arguments bound so far. */
  function TranslateId(op: Operator, v: Val, n: nat): Result<Out> {
    var p := Param(n + 1);
    match op
    case OEq => if v.VStr? then One(Compare(Eq, IdCol, p), [Text(v.s)]) else Err("_id wants string")
    case ONe => if v.VStr? then One(Compare(Ne, IdCol, p), [Text(v.s)]) else Err("_id wants string")
    case OCmp(c) => if v.VStr? then One(Compare(c, IdCol, p), [Text(v.s)]) else Err("_id wants string")
    case OIn =>
      match StringList(v) { case Err(e) => Err(e) case Ok(ss) => One(EqAny(IdCol, p), [Texts(ss)]) }
    case ONin =>
      match StringList(v) { case Err(e) => Err(e) case Ok(ss) => One(Not(Group(EqAny(IdCol, p))), [Texts(ss)]) }
    case _ => Err("unsupported operator on _id")
  }

  /** `NOT IN`, with an absent field counting as not in. */
  function NotAny(e: Expr, p: Expr): Expr {
    Group(Or([IsNull(e, true), Not(Group(EqAny(e, p)))]))
  }

  /** `op` on a document field. */
  function TranslateDocOp(path: string, op: Operator, v: Val, n: nat): Result<Out> {
    var p := Param(n + 1);
    match op
    case OEq =>
      if v.VNil? then One(AbsentOrNull(path), [])
      else (match TypedExpr(path, v) case Err(e) => Err(e) case Ok((e, arg)) => One(Compare(Eq, e, p), [arg]))
    case ONe =>
      if v.VNil? then One(Not(AbsentOrNull(path)), [])
      else (match TypedExpr(path, v) case Err(e) => Err(e) case Ok((e, arg)) => One(Distinct(e, p), [arg]))
    case OCmp(c) =>
      (match TypedExpr(path, v) case Err(e) => Err(e) case Ok((e, arg)) => One(Compare(c, e, p), [arg]))
    case OExists =>
      if v.VBool? then One(IsNull(JsonExpr(path), !v.b), []) else Err("$exists wants bool")
    case OIn =>
      (match InList(path, v) case Err(e) => Err(e) case Ok((e, arr)) => One(EqAny(e, p), [arr]))
    case ONin =>
      (match InList(path, v) case Err(e) => Err(e) case Ok((e, arr)) => One(NotAny(e, p), [arr]))
    case OContains =>
      if Encodable(v) then One(Infix(Contains, JsonExpr(path), Cast(p, Jsonb)), [JsonV(JArr([Encode(v)]))])
      else Err("encode value")
  }

  /** `op`. */
  function TranslateOp(path: string, op: Operator, v: Val, n: nat): Result<Out> {
    if IsId(path) then TranslateId(op, v, n) else TranslateDocOp(path, op, v, n)
  }

  /** `regexOp`; it has no special case for the id. */
  function TranslateRegex(path: string, pattern: Val, options: Option<Val>, n: nat): Result<Out> {
    if !pattern.VStr? then Err("$regex wants string")
    else One(Infix(if IgnoreCase(options) then IMatch else Match, TextExpr(path), Param(n + 1)), [Text(pattern.s)])
  }

  function TranslateEntry(path: string, ops: Doc, op: string, n: nat): Result<Out>
    requires op in ops.fields
  {
    if op == "$options" then Ok(Out([], []))
    else if op == "$regex" then TranslateRegex(path, ops.fields[op], Get(ops, "$options"), n)
    else if OperatorOf(op).None? then Err("unsupported operator")
    else TranslateOp(path, OperatorOf(op).value, ops.fields[op], n)
  }

  function Append(a: Result<Out>, b: Result<Out>): Result<Out> {
    match (a, b)
    case (Err(e), _) => Err(e)
    case (_, Err(e)) => Err(e)
    case (Ok(x), Ok(y)) => Ok(Out(x.parts + y.parts, x.args + y.args))
  }

  function ArgCount(r: Result<Out>): nat {
    if r.Ok? then |r.value.args| else 0
  }

  function TranslateEntries(path: string, ops: Doc, keys: seq<string>, n: nat): Result<Out>
    requires forall k :: k in keys ==> k in ops.fields
  {
    if keys == [] then Ok(Out([], []))
    else
      var first := TranslateEntry(path, ops, keys[0], n);
      Append(first, TranslateEntries(path, ops, keys[1..], n + ArgCount(first)))
  }

  /** `field`: an operator map becomes the conjunction of its operators in key order. */
  ghost function TranslateField(path: string, v: Val, n: nat): Result<Out> {
    if v.VMap? && IsOpMap(v.f) then
      SortedKeysFacts(v.f.fields.Keys);
      var r := TranslateEntries(path, v.f, SortedKeys(v.f.fields.Keys), n);
      if r.Ok? && r.value.parts == [] then Ok(Out([Blank], r.value.args)) else r
    else TranslateOp(path, OEq, v, n)
  }

  /** `filter`. */
  ghost function TranslateFilter(f: Doc, n: nat): Result<Out>
    decreases f, 1
  {
    if f.fields == map[] then One(True, [])
    else
      SortedKeysFacts(f.fields.Keys);
      TranslateKeys(f, SortedKeys(f.fields.Keys), n)
  }

  ghost function TranslateKeys(f: Doc, keys: seq<string>, n: nat): Result<Out>
    requires forall k :: k in keys ==> k in f.fields
    decreases f, 0, |keys|, 1
  {
    if keys == [] then Ok(Out([], []))
    else
      var first := TranslateKey(f, keys[0], n);
      Append(first, TranslateKeys(f, keys[1..], n + ArgCount(first)))
  }

  ghost function TranslateKey(f: Doc, k: string, n: nat): Result<Out>
    requires k in f.fields
    decreases f, 0, 0
  {
    var v := f.fields[k];
    if k == "$or" || k == "$and" then
      if !IsFilterList(v) then Err("wants a list of filters")
      else if SubCount(v) == 0 then Err("empty list")
      else match TranslateSubs(v, 0, n)
        case Err(e) => Err(e)
        case Ok(out) => One(Group(if k == "$or" then MkOr(out.parts) else MkAnd(out.parts)), out.args)
    else if HasPrefix(k, "$") then Err("unsupported top-level operator")
    else TranslateField(k, v, n)
  }

  /** The sub-filters from the i-th on, each in its own parentheses. */
  ghost function TranslateSubs(v: Val, i: nat, n: nat): Result<Out>
    requires IsFilterList(v) && i <= SubCount(v)
    decreases v, SubCount(v) - i
  {
    if i == SubCount(v) then Ok(Out([], []))
    else
      var first := match TranslateFilter(Sub(v, i), n)
                   case Err(e) => Err(e)
                   case Ok(out) => One(Group(MkAnd(out.parts)), out.args);
      Append(first, TranslateSubs(v, i + 1, n + ArgCount(first)))
  }
}
