/** The fragment of PostgreSQL that the document store emits: JSON documents, boolean and
    jsonb expressions over a row, and their three-valued evaluation. */
module Sql {
  import opened Base

  datatype Json =
    | JNull
    | JBool(b: bool)
    | JNum(n: real)
    | JStr(s: string)
    | JArr(elems: seq<Json>)
    | JObj(fields: map<string, Json>)

  /** One table row: the id column and the jsonb document. */
  datatype Row = Row(id: string, doc: Json)

  /** The parts of PostgreSQL that are left uninterpreted. */
  datatype Pg = Pg(
    numText: real -> string,
    treeText: Json -> string,
    parseNum: string -> Option<real>,
    parseTime: string -> Option<int>,
    collate: (string, string) -> int,
    regex: (string, string, bool) -> bool,
    contains: (Json, Json) -> bool
  )

  datatype V =
    | Null
    | Bool(b: bool)
    | Text(s: string)
    | Num(n: real)
    | Time(t: int)
    | JsonV(j: Json)
    | Texts(ss: seq<string>)
    | Nums(ns: seq<real>)
    | Fault  // the statement raises an error: a failed cast or an ill-typed operand

  datatype Type = Numeric | Timestamptz | Jsonb

  datatype Other = GetJson | GetText | PathJson | PathText | Contains | Match | IMatch

  datatype Cmp = Eq | Ne | Lt | Le | Gt | Ge

  datatype Expr =
    | True
    | DocCol
    | IdCol
    | Str(s: string)
    | Param(i: nat)
    | Group(e: Expr)
    | Cast(e: Expr, t: Type)
    | Infix(op: Other, l: Expr, r: Expr)
    | Compare(c: Cmp, l: Expr, r: Expr)
    | EqAny(l: Expr, arr: Expr)
    | IsNull(e: Expr, positive: bool)
    | Distinct(l: Expr, r: Expr)
    | Not(e: Expr)
    | And(es: seq<Expr>)
    | Or(es: seq<Expr>)
    | Blank  // an empty fragment of SQL text, never valid SQL

  // ----- documents -----

  function Lookup(j: Json, path: seq<string>): Option<Json>
    decreases |path|
  {
    if path == [] then Some(j)
    else if j.JObj? && path[0] in j.fields then Lookup(j.fields[path[0]], path[1..])
    else None
  }

  /** `->>`: the text of a field, SQL NULL for an absent field and for JSON null. */
  function AsText(pg: Pg, field: Option<Json>): Option<string> {
    match field
    case None => None
    case Some(JNull) => None
    case Some(JBool(b)) => Some(BoolText(b))
    case Some(JNum(n)) => Some(pg.numText(n))
    case Some(JStr(s)) => Some(s)
    case Some(j) => Some(pg.treeText(j))
  }

  function BoolText(b: bool): string {
    if b then "true" else "false"
  }

  // ----- text[] literals of `#>` paths -----

  predicate Space(c: char) {
    c in {' ', '\t', '\n', '\r', '\U{0B}', '\U{0C}'}
  }

  predicate NullWord(s: string) {
    |s| == 4 && s[0] in {'n', 'N'} && s[1] in {'u', 'U'} && s[2] in {'l', 'L'} && s[3] in {'l', 'L'}
  }

  /** Reads `{a,b,c}` as PostgreSQL reads a text array.  White space around an element is
      dropped, a backslash takes the next character as it is, and an empty element, an inner
      brace or quote and the bare word NULL make no path. */
  function ParsePath(s: string): Option<seq<string>> {
    if s != [] && s[0] == '{' then ParseElems(s[1..], Elem([], [], false), []) else None
  }

  /** An element being read: its text so far, white space that belongs to it only if more text
      follows, and whether it held a backslash. */
  datatype Elem = Elem(text: string, spaces: string, escaped: bool)

  predicate Closable(e: Elem) {
    e.text != [] && (e.escaped || !NullWord(e.text))
  }

  function Extended(e: Elem, c: char): Elem {
    e.(text := e.text + e.spaces + [c], spaces := [])
  }

  function ParseElems(s: string, e: Elem, done: seq<string>): Option<seq<string>>
    decreases |s|
  {
    if s == [] then None
    else if s[0] == '\\' then
      if |s| >= 2 then ParseElems(s[2..], Extended(e, s[1]).(escaped := true), done) else None
    else if s[0] == ',' then
      if Closable(e) then ParseElems(s[1..], Elem([], [], false), done + [e.text]) else None
    else if s[0] == '}' then
      if |s| > 1 then None
      else if Closable(e) then Some(done + [e.text])
      else if e.text == [] && done == [] then Some([]) else None
    else if s[0] == '{' || s[0] == '"' then None
    else if Space(s[0]) then
      ParseElems(s[1..], if e.text == [] then e else e.(spaces := e.spaces + [s[0]]), done)
    else ParseElems(s[1..], Extended(e, s[0]), done)
  }

  // ----- evaluation -----

  function AndV(a: V, b: V): V {
    if !(a.Bool? || a.Null?) || !(b.Bool? || b.Null?) then Fault
    else if a == Bool(false) || b == Bool(false) then Bool(false)
    else if a.Null? || b.Null? then Null
    else Bool(true)
  }

  function OrV(a: V, b: V): V {
    if !(a.Bool? || a.Null?) || !(b.Bool? || b.Null?) then Fault
    else if a == Bool(true) || b == Bool(true) then Bool(true)
    else if a.Null? || b.Null? then Null
    else Bool(false)
  }

  function NotV(a: V): V {
    match a
    case Null => Null
    case Bool(b) => Bool(!b)
    case _ => Fault
  }

  function CastV(pg: Pg, v: V, t: Type): V {
    if v.Null? then Null
    else if t.Numeric? && v.Text? then
      match pg.parseNum(v.s) case Some(n) => Num(n) case None => Fault
    else if t.Timestamptz? && v.Text? then
      match pg.parseTime(v.s) case Some(k) => Time(k) case None => Fault
    else if t.Jsonb? && v == Text("null") then JsonV(JNull)
    else if t.Jsonb? && v.JsonV? then v
    else Fault
  }

  function TextV(t: Option<string>): V {
    match t case None => Null case Some(s) => Text(s)
  }

  function JsonbV(field: Option<Json>): V {
    match field case None => Null case Some(j) => JsonV(j)
  }

  function OtherV(pg: Pg, op: Other, l: V, r: V): V {
    if l.Fault? || r.Fault? then Fault
    else match op
      case GetJson => if l.JsonV? && r.Text? then JsonbV(Lookup(l.j, [r.s])) else Fault
      case GetText => if l.JsonV? && r.Text? then TextV(AsText(pg, Lookup(l.j, [r.s]))) else Fault
      case PathJson =>
        if l.JsonV? && r.Text? && ParsePath(r.s).Some? then JsonbV(Lookup(l.j, ParsePath(r.s).value)) else Fault
      case PathText =>
        if l.JsonV? && r.Text? && ParsePath(r.s).Some? then TextV(AsText(pg, Lookup(l.j, ParsePath(r.s).value))) else Fault
      case Contains => if !r.JsonV? then Fault else if l.Null? then Null else if l.JsonV? then Bool(pg.contains(l.j, r.j)) else Fault
      case Match => if !r.Text? then Fault else if l.Null? then Null else if l.Text? then Bool(pg.regex(l.s, r.s, false)) else Fault
      case IMatch => if !r.Text? then Fault else if l.Null? then Null else if l.Text? then Bool(pg.regex(l.s, r.s, true)) else Fault
  }

  function Holds(c: Cmp, sign: int): bool {
    match c
    case Eq => sign == 0
    case Ne => sign != 0
    case Lt => sign < 0
    case Le => sign <= 0
    case Gt => sign > 0
    case Ge => sign >= 0
  }

  function Sign(x: real, y: real): int {
    if x < y then -1 else if x == y then 0 else 1
  }

  /** Equality of texts is identity; only the order of texts is the collation's. */
  function CompareV(pg: Pg, c: Cmp, l: V, r: V): V {
    if l.Fault? || r.Fault? then Fault
    else if l.Null? || r.Null? then Null
    else match (l, r)
      case (Text(a), Text(b)) =>
        if c.Eq? then Bool(a == b) else if c.Ne? then Bool(a != b) else Bool(Holds(c, pg.collate(a, b)))
      case (Num(a), Num(b)) => Bool(Holds(c, Sign(a, b)))
      case (Time(a), Time(b)) => Bool(Holds(c, a - b))
      case (JsonV(a), JsonV(b)) => if c.Eq? then Bool(a == b) else if c.Ne? then Bool(a != b) else Fault
      case _ => Fault
  }

  function DistinctV(pg: Pg, l: V, r: V): V {
    if l.Fault? || r.Fault? then Fault
    else if l.Null? && r.Null? then Bool(false)
    else if l.Null? || r.Null? then Bool(true)
    else CompareV(pg, Ne, l, r)
  }

  /** `x = ANY(array)`: false on an empty array even for a NULL `x`. */
  function AnyV(l: V, arr: V): V {
    match arr
    case Texts(ss) =>
      if l.Null? then (if ss == [] then Bool(false) else Null)
      else if l.Text? then Bool(l.s in ss) else Fault
    case Nums(ns) =>
      if l.Null? then (if ns == [] then Bool(false) else Null)
      else if l.Num? then Bool(l.n in ns) else Fault
    case _ => Fault
  }

  function Eval(pg: Pg, row: Row, args: seq<V>, e: Expr): V
    decreases e, 0
  {
    match e
    case True => Bool(true)
    case DocCol => JsonV(row.doc)
    case IdCol => Text(row.id)
    case Str(s) => Text(s)
    case Param(i) => if 1 <= i <= |args| then args[i - 1] else Fault
    case Group(e1) => Eval(pg, row, args, e1)
    case Cast(e1, t) => CastV(pg, Eval(pg, row, args, e1), t)
    case Infix(op, l, r) => OtherV(pg, op, Eval(pg, row, args, l), Eval(pg, row, args, r))
    case Compare(c, l, r) => CompareV(pg, c, Eval(pg, row, args, l), Eval(pg, row, args, r))
    case EqAny(l, arr) => AnyV(Eval(pg, row, args, l), Eval(pg, row, args, arr))
    case IsNull(e1, positive) =>
      var v := Eval(pg, row, args, e1);
      if v.Fault? then Fault else Bool(v.Null? == positive)
    case Distinct(l, r) => DistinctV(pg, Eval(pg, row, args, l), Eval(pg, row, args, r))
    case Not(e1) => NotV(Eval(pg, row, args, e1))
    case And(es) => Conj(pg, row, args, es)
    case Or(es) => Disj(pg, row, args, es)
    case Blank => Fault
  }

  /** Conjunction of a list, evaluating every member (SQL promises no short circuit). */
  function Conj(pg: Pg, row: Row, args: seq<V>, es: seq<Expr>): V
    decreases es, 1
  {
    if es == [] then Bool(true) else AndV(Eval(pg, row, args, es[0]), Conj(pg, row, args, es[1..]))
  }

  function Disj(pg: Pg, row: Row, args: seq<V>, es: seq<Expr>): V
    decreases es, 1
  {
    if es == [] then Bool(false) else OrV(Eval(pg, row, args, es[0]), Disj(pg, row, args, es[1..]))
  }

  // ----- joining rendered conditions -----

  function MkAnd(parts: seq<Expr>): Expr {
    if |parts| == 1 then parts[0] else And(parts)
  }

  function MkOr(parts: seq<Expr>): Expr {
    if |parts| == 1 then parts[0] else Or(parts)
  }

  // ----- extraction expressions -----

  /** A backslash in front of every backslash and every double quote. */
  function Escape(p: string): string {
    if p == [] then [] else EscapeChar(p[0]) + Escape(p[1..])
  }

  function EscapeChar(c: char): string {
    if c == '\\' || c == '"' then ['\\', c] else [c]
  }

  function EscapeAll(parts: seq<string>): seq<string> {
    if parts == [] then [] else [Escape(parts[0])] + EscapeAll(parts[1..])
  }

  /** The contents of the quoted literal `pathLit` emits. */
  function PathLit(parts: seq<string>): string {
    "{" + Join(EscapeAll(parts), ",") + "}"
  }

  function TextExpr(path: string): Expr {
    var parts := Split(path, '.');
    if |parts| == 1 then Infix(GetText, DocCol, Str(path)) else Infix(PathText, DocCol, Str(PathLit(parts)))
  }

  function JsonExpr(path: string): Expr {
    var parts := Split(path, '.');
    if |parts| == 1 then Infix(GetJson, DocCol, Str(path)) else Infix(PathJson, DocCol, Str(PathLit(parts)))
  }

  /** A component that an unquoted array element can carry. */
  predicate ArrayElem(p: string) {
    && p != [] && !NullWord(p) && !Space(p[0]) && !Space(p[|p| - 1])
    && forall c :: c in p ==> c !in {',', '{', '}'}
  }

  /** A whole number, which PostgreSQL takes as an index where it meets an array. */
  predicate IntegerText(p: string) {
    var d := if p != [] && (p[0] == '+' || p[0] == '-') then p[1..] else p;
    d != [] && forall c :: c in d ==> '0' <= c <= '9'
  }

  predicate PlainPart(p: string) {
    ArrayElem(p) && !IntegerText(p)
  }

  predicate PlainPath(path: string) {
    '.' in path ==> forall p :: p in Split(path, '.') ==> PlainPart(p)
  }

  // ----- path literals are read back -----

  /** What reading the characters of `p` makes of an element. */
  function Absorb(p: string, e: Elem): Elem {
    if p == [] then e
    else if Space(p[0]) then Absorb(p[1..], e.(spaces := e.spaces + [p[0]]))
    else Absorb(p[1..], Extended(e, p[0]).(escaped := e.escaped || p[0] == '\\' || p[0] == '"'))
  }

  lemma {:induction false} AbsorbAll(p: string, e: Elem)
    requires p != [] && !Space(p[|p| - 1])
    ensures Absorb(p, e).text == e.text + e.spaces + p && Absorb(p, e).spaces == []
  {
    hide Space;
    if |p| == 1 {
      assert Absorb(p[1..], Extended(e, p[0])) == Extended(e, p[0]);
      assert p == [p[0]];
    } else {
      var f := if Space(p[0]) then e.(spaces := e.spaces + [p[0]])
               else Extended(e, p[0]).(escaped := e.escaped || p[0] == '\\' || p[0] == '"');
      AbsorbAll(p[1..], f);
      assert p == [p[0]] + p[1..];
      assert f.text + f.spaces == e.text + e.spaces + [p[0]];
      assert e.text + e.spaces + [p[0]] + p[1..] == e.text + e.spaces + p;
    }
  }

  lemma ParseEscapedChar(c: char, e: Elem, done: seq<string>, tail: string)
    requires c !in {',', '{', '}'} && (Space(c) ==> e.text != [])
    ensures ParseElems(EscapeChar(c) + tail, e, done) ==
      ParseElems(tail, if Space(c) then e.(spaces := e.spaces + [c])
                       else Extended(e, c).(escaped := e.escaped || c == '\\' || c == '"'), done)
  {
    if c == '\\' || c == '"' {
      assert (['\\', c] + tail)[2..] == tail;
    } else {
      assert ([c] + tail)[1..] == tail;
    }
  }

  lemma {:induction false} ParseEscaped(p: string, e: Elem, done: seq<string>, rest: string)
    requires (forall c :: c in p ==> c !in {',', '{', '}'}) && (e.text == [] && p != [] ==> !Space(p[0]))
    ensures ParseElems(Escape(p) + rest, e, done) == ParseElems(rest, Absorb(p, e), done)
  {
    hide ParseElems, EscapeChar, Space;
    if p == [] {
      assert Escape(p) + rest == rest;
    } else {
      var tail := Escape(p[1..]) + rest;
      assert Escape(p) + rest == EscapeChar(p[0]) + tail;
      assert p[0] in p && Space(p[0]) ==> e.text != [];
      assert forall c :: c in p[1..] ==> c in p;
      ParseEscapedChar(p[0], e, done, tail);
      var f := if Space(p[0]) then e.(spaces := e.spaces + [p[0]])
               else Extended(e, p[0]).(escaped := e.escaped || p[0] == '\\' || p[0] == '"');
      ParseEscaped(p[1..], f, done, rest);
    }
  }

  lemma ParseSeparators(e: Elem, done: seq<string>, tail: string)
    requires Closable(e)
    ensures ParseElems("}", e, done) == Some(done + [e.text])
    ensures ParseElems("," + tail, e, done) == ParseElems(tail, Elem([], [], false), done + [e.text])
  {
    assert ("," + tail)[1..] == tail;
  }

  lemma {:induction false} ParseJoined(parts: seq<string>, done: seq<string>)
    requires parts != [] && forall p :: p in parts ==> ArrayElem(p)
    ensures ParseElems(Join(EscapeAll(parts), ",") + "}", Elem([], [], false), done) == Some(done + parts)
  {
    hide ParseElems, Escape, ArrayElem;
    var start := Elem([], [], false);
    if |parts| == 1 {
      assert EscapeAll(parts[1..]) == [];
      ParseOne(parts[0], done, "");
      assert done + [parts[0]] == done + parts;
    } else {
      var more := Join(EscapeAll(parts[1..]), ",") + "}";
      assert EscapeAll(parts)[1..] == EscapeAll(parts[1..]);
      assert Join(EscapeAll(parts), ",") + "}" == Escape(parts[0]) + ("," + more);
      ParseOne(parts[0], done, more);
      ParseJoined(parts[1..], done + [parts[0]]);
      assert done + [parts[0]] + parts[1..] == done + parts;
    }
  }

  /** One element and the separator behind it. */
  lemma ParseOne(p: string, done: seq<string>, more: string)
    requires ArrayElem(p)
    ensures ParseElems(Escape(p) + "}", Elem([], [], false), done) == Some(done + [p])
    ensures ParseElems(Escape(p) + ("," + more), Elem([], [], false), done) == ParseElems(more, Elem([], [], false), done + [p])
  {
    hide ParseElems, Escape, NullWord, Space;
    var start := Elem([], [], false);
    AbsorbAll(p, start);
    assert [] + [] + p == p;
    ParseEscaped(p, start, done, "}");
    ParseEscaped(p, start, done, "," + more);
    ParseSeparators(Absorb(p, start), done, more);
  }

  // ----- nothing else is -----

  /** A backslash stands only in front of a backslash or a quote. */
  predicate WellEscaped(s: string)
    decreases |s|
  {
    s == [] || if s[0] == '\\' then |s| >= 2 && (s[1] == '\\' || s[1] == '"') && WellEscaped(s[2..]) else WellEscaped(s[1..])
  }

  lemma {:induction false} WellEscapedAppend(a: string, b: string)
    requires WellEscaped(a) && WellEscaped(b)
    ensures WellEscaped(a + b)
    decreases |a|
  {
    if a == [] {
      assert a + b == b;
    } else if a[0] == '\\' {
      WellEscapedAppend(a[2..], b);
      assert (a + b)[2..] == a[2..] + b;
    } else {
      WellEscapedAppend(a[1..], b);
      assert (a + b)[1..] == a[1..] + b;
    }
  }

  lemma EscapeCharIsWell(c: char)
    ensures WellEscaped(EscapeChar(c))
  {
    assert WellEscaped([]);
    if c == '\\' || c == '"' {
      assert ['\\', c][2..] == [];
    } else {
      assert [c][1..] == [];
    }
  }

  lemma {:induction false} EscapeIsWell(p: string)
    ensures WellEscaped(Escape(p))
  {
    hide EscapeChar;
    if p != [] {
      EscapeCharIsWell(p[0]);
      EscapeIsWell(p[1..]);
      WellEscapedAppend(EscapeChar(p[0]), Escape(p[1..]));
    }
  }

  lemma {:induction false} JoinedIsWell(parts: seq<string>)
    ensures WellEscaped(Join(EscapeAll(parts), ","))
  {
    hide Escape;
    if parts != [] {
      EscapeIsWell(parts[0]);
      JoinedIsWell(parts[1..]);
      assert EscapeAll(parts)[1..] == EscapeAll(parts[1..]);
      assert "," == [','] && [','][1..] == [] && WellEscaped([]);
      WellEscapedAppend(Escape(parts[0]), ",");
      WellEscapedAppend(Escape(parts[0]) + ",", Join(EscapeAll(parts[1..]), ","));
    }
  }

  /** An element in the making, as read from a well escaped text. */
  predicate Forming(e: Elem) {
    && (forall c :: c in e.text ==> c !in {',', '{', '}'}) && (forall c :: c in e.spaces ==> Space(c))
    && (e.text != [] ==> !Space(e.text[0]) && !Space(e.text[|e.text| - 1]))
    && (e.text == [] ==> e.spaces == [])
    && (e.escaped ==> '\\' in e.text || '"' in e.text)
  }

  lemma FormingExtended(e: Elem, c: char)
    requires Forming(e) && !Space(c) && c !in {',', '{', '}'}
    ensures Forming(Extended(e, c))
    ensures c == '\\' || c == '"' ==> Forming(Extended(e, c).(escaped := true))
  {
    assert Extended(e, c).text[|e.text| + |e.spaces|] == c;
    assert e.text != [] ==> Extended(e, c).text[0] == e.text[0];
    forall d | d in Extended(e, c).text ensures d !in {',', '{', '}'} {
      assert d in e.text || d in e.spaces || d == c;
    }
    if e.escaped {
      assert forall d :: d in e.text ==> d in Extended(e, c).text;
    }
  }

  lemma FormedIsElem(e: Elem)
    requires Forming(e) && Closable(e)
    ensures ArrayElem(e.text)
  {
    assert NullWord(e.text) ==> '\\' !in e.text && '"' !in e.text;
  }

  lemma {:induction false} ReadsElems(s: string, e: Elem, done: seq<string>)
    requires WellEscaped(s) && Forming(e) && (forall p :: p in done ==> ArrayElem(p)) && ParseElems(s, e, done).Some?
    ensures forall p :: p in ParseElems(s, e, done).value ==> ArrayElem(p)
    decreases |s|
  {
    hide ArrayElem, Forming, Closable, Extended;
    var c := s[0];
    if c == '\\' {
      FormingExtended(e, s[1]);
      ReadsElems(s[2..], Extended(e, s[1]).(escaped := true), done);
    } else if c == ',' {
      FormedIsElem(e);
      assert Forming(Elem([], [], false)) by { NothingForms(); }
      ReadsElems(s[1..], Elem([], [], false), done + [e.text]);
    } else if c == '}' {
      if Closable(e) { FormedIsElem(e); }
    } else if Space(c) {
      if e.text != [] { FormingSpaced(e, c); }
      ReadsElems(s[1..], if e.text == [] then e else e.(spaces := e.spaces + [c]), done);
    } else {
      FormingExtended(e, c);
      ReadsElems(s[1..], Extended(e, c), done);
    }
  }

  lemma NothingForms()
    ensures Forming(Elem([], [], false))
  {
  }

  lemma FormingSpaced(e: Elem, c: char)
    requires Forming(e) && Space(c) && e.text != []
    ensures Forming(e.(spaces := e.spaces + [c]))
  {
  }

  /** `pathLit` round-trips exactly when every component can stand unquoted: not empty, no comma
      and no brace, no white space at its ends, and not the word NULL. */
  lemma PathLitRoundTrip(parts: seq<string>)
    requires parts != []
    ensures ParsePath(PathLit(parts)) == Some(parts) <==> forall p :: p in parts ==> ArrayElem(p)
  {
    hide ArrayElem, ParseElems, WellEscaped;
    var body := Join(EscapeAll(parts), ",") + "}";
    assert PathLit(parts)[1..] == body;
    if forall p :: p in parts ==> ArrayElem(p) {
      ParseJoined(parts, []);
      assert [] + parts == parts;
    }
    if ParsePath(PathLit(parts)) == Some(parts) {
      JoinedIsWell(parts);
      BraceIsWell();
      WellEscapedAppend(Join(EscapeAll(parts), ","), "}");
      NothingForms();
      ReadsElems(body, Elem([], [], false), []);
    }
  }

  lemma BraceIsWell()
    ensures WellEscaped("}")
  {
    assert "}"[1..] == [];
  }

  /** `textExpr` reads the text of the field the dotted path names, `jsonExpr` its value. */
  lemma ExtractionReadsField(pg: Pg, row: Row, args: seq<V>, path: string)
    requires PlainPath(path)
    ensures Eval(pg, row, args, TextExpr(path)) == TextV(AsText(pg, Lookup(row.doc, Split(path, '.'))))
    ensures Eval(pg, row, args, JsonExpr(path)) == JsonbV(Lookup(row.doc, Split(path, '.')))
  {
    SplitSingle(path, '.');
    var parts := Split(path, '.');
    if |parts| == 1 {
    } else {
      PathLitRoundTrip(parts);
    }
  }

  // ----- quoted string literals, character by character -----

  /** `quoteLit`: single quotes doubled, the whole in single quotes. */
  function QuoteLit(s: string): string {
    "'" + DoubleQuotes(s) + "'"
  }

  function DoubleQuotes(s: string): string {
    if s == [] then [] else DoubleChar(s[0]) + DoubleQuotes(s[1..])
  }

  function DoubleChar(c: char): string {
    if c == '\'' then "''" else [c]
  }

  /** PostgreSQL's scanner after the opening quote: the literal's value and the rest. */
  function ScanLit(s: string): Option<(string, string)> {
    if s == [] then None
    else if s[0] != '\'' then
      match ScanLit(s[1..]) case None => None case Some((v, rest)) => Some(([s[0]] + v, rest))
    else if |s| >= 2 && s[1] == '\'' then
      match ScanLit(s[2..]) case None => None case Some((v, rest)) => Some(("'" + v, rest))
    else Some(([], s[1..]))
  }

  lemma ScanDoubledChar(c: char, tail: string)
    requires ScanLit(tail).Some?
    ensures var (v, rest) := ScanLit(tail).value; ScanLit(DoubleChar(c) + tail) == Some(([c] + v, rest))
  {
    if c == '\'' {
      assert ("''" + tail)[2..] == tail;
    } else {
      assert ([c] + tail)[1..] == tail;
    }
  }

  lemma {:induction false} ScanDoubled(s: string, rest: string)
    requires rest == [] || rest[0] != '\''
    ensures ScanLit(DoubleQuotes(s) + (['\''] + rest)) == Some((s, rest))
  {
    hide DoubleChar;
    var close := ['\''] + rest;
    if s == [] {
      assert DoubleQuotes(s) + close == close;
      assert close[1..] == rest;
    } else {
      hide ScanLit;
      ScanDoubled(s[1..], rest);
      var tail := DoubleQuotes(s[1..]) + close;
      assert DoubleQuotes(s) + close == DoubleChar(s[0]) + tail;
      ScanDoubledChar(s[0], tail);
      assert s == [s[0]] + s[1..];
    }
  }

  /** Whatever the field name holds, the literal ends where `quoteLit` ended it. */
  lemma QuoteLitScansBack(s: string, rest: string)
    requires rest == [] || rest[0] != '\''
    ensures QuoteLit(s)[0] == '\''
    ensures ScanLit(QuoteLit(s)[1..] + rest) == Some((s, rest))
  {
    hide ScanLit, DoubleQuotes;
    assert QuoteLit(s)[1..] + rest == DoubleQuotes(s) + (['\''] + rest);
    ScanDoubled(s, rest);
  }
}
