/** SQL text as a token sequence, PostgreSQL's operator precedence, and the proof that
    rendered expressions read back as the expression that was meant. */
module SqlText {
  import opened Base
  import opened Sql

  datatype Token =
    | TLp | TRp | TAnd | TOr | TNot | TTrue | TDoc | TId | TAny | TDistinct
    | TStr(s: string)
    | TParam(i: nat)
    | TCast(t: Type)
    | TOther(op: Other)
    | TCmp(c: Cmp)
    | TIsNull(positive: bool)

  // ----- rendering -----

  function Render(e: Expr): seq<Token>
    decreases e, 0
  {
    match e
    case True => [TTrue]
    case DocCol => [TDoc]
    case IdCol => [TId]
    case Str(s) => [TStr(s)]
    case Param(i) => [TParam(i)]
    case Group(e1) => [TLp] + Render(e1) + [TRp]
    case Cast(e1, t) => Render(e1) + [TCast(t)]
    case Infix(op, l, r) => Render(l) + [TOther(op)] + Render(r)
    case Compare(c, l, r) => Render(l) + [TCmp(c)] + Render(r)
    case EqAny(l, arr) => Render(l) + [TCmp(Eq), TAny, TLp] + Render(arr) + [TRp]
    case IsNull(e1, positive) => Render(e1) + [TIsNull(positive)]
    case Distinct(l, r) => Render(l) + [TDistinct] + Render(r)
    case Not(e1) => [TNot] + Render(e1)
    case And(es) => RenderList(es, TAnd)
    case Or(es) => RenderList(es, TOr)
    case Blank => []
  }

  function RenderList(es: seq<Expr>, sep: Token): seq<Token>
    decreases es, 1
  {
    if es == [] then []
    else if |es| == 1 then Render(es[0])
    else Render(es[0]) + [sep] + RenderList(es[1..], sep)
  }

  // ----- precedence -----

  /** 0 OR, 1 AND, 2 NOT, 3 IS, 4 comparison, 5 other operators, 6 cast, 7 primary. */
  function Level(e: Expr): int {
    match e
    case Or(_) => 0
    case And(_) => 1
    case Not(_) => 2
    case IsNull(_, _) => 3
    case Distinct(_, _) => 3
    case Compare(_, _, _) => 4
    case EqAny(_, _) => 4
    case Infix(_, _, _) => 5
    case Cast(_, _) => 6
    case Blank => -1
    case _ => 7
  }

  /** The level of an operator token; closing parentheses and everything else end any level. */
  function TokenLevel(t: Token): int {
    match t
    case TOr => 0
    case TAnd => 1
    case TIsNull(_) => 3
    case TDistinct => 3
    case TCmp(_) => 4
    case TOther(_) => 5
    case TCast(_) => 6
    case _ => -1
  }

  /** The text needs no further parentheses: every operand binds at least as tightly as its
      position requires. */
  predicate Canonical(e: Expr)
    decreases e, 0
  {
    match e
    case Group(e1) => Canonical(e1)
    case Cast(e1, _) => Canonical(e1) && Level(e1) >= 6
    case Infix(_, l, r) => Canonical(l) && Canonical(r) && Level(l) >= 5 && Level(r) >= 6
    case Compare(_, l, r) => Canonical(l) && Canonical(r) && Level(l) >= 5 && Level(r) >= 5
    case EqAny(l, arr) => Canonical(l) && Canonical(arr) && Level(l) >= 5
    case IsNull(e1, _) => Canonical(e1) && Level(e1) >= 4
    case Distinct(l, r) => Canonical(l) && Canonical(r) && Level(l) >= 4 && Level(r) >= 4
    case Not(e1) => Canonical(e1) && Level(e1) >= 2
    case And(es) => |es| >= 2 && CanonicalAll(es, 2)
    case Or(es) => |es| >= 2 && CanonicalAll(es, 1)
    case Blank => false
    case _ => true
  }

  predicate CanonicalAll(es: seq<Expr>, level: int)
    decreases es, 1
  {
    es == [] || (Canonical(es[0]) && Level(es[0]) >= level && CanonicalAll(es[1..], level))
  }

  // ----- the grammar -----

  type Tokens = seq<Token>

  /** Parses an expression of the given level; the result and the unread tokens. */
  function Parse(level: nat, ts: Tokens): (r: Option<(Expr, Tokens)>)
    requires level <= 7
    ensures r.Some? ==> |r.value.1| < |ts|
    decreases |ts|, 8 - level, 0
  {
    if ts == [] then None
    else if level == 0 then
      match ParseList(0, ts) { case None => None case Some((es, rest)) => Some((MkOr(es), rest)) }
    else if level == 1 then
      match ParseList(1, ts) { case None => None case Some((es, rest)) => Some((MkAnd(es), rest)) }
    else if level == 2 then
      if ts[0] == TNot then
        match Parse(2, ts[1..]) { case None => None case Some((e, rest)) => Some((Not(e), rest)) }
      else Parse(3, ts)
    else if level == 3 then
      match Parse(4, ts)
      case None => None
      case Some((e, rest)) =>
        if rest == [] then Some((e, rest))
        else if rest[0].TIsNull? then Some((IsNull(e, rest[0].positive), rest[1..]))
        else if rest[0].TDistinct? then
          match Parse(4, rest[1..]) { case None => None case Some((r, rest2)) => Some((Distinct(e, r), rest2)) }
        else Some((e, rest))
    else if level == 4 then
      match Parse(5, ts)
      case None => None
      case Some((e, rest)) =>
        if rest == [] || !rest[0].TCmp? then Some((e, rest))
        else if |rest| >= 3 && rest[..3] == [TCmp(Eq), TAny, TLp] then
          match Parse(0, rest[3..])
          case None => None
          case Some((arr, rest2)) => if rest2 != [] && rest2[0] == TRp then Some((EqAny(e, arr), rest2[1..])) else None
        else
          match Parse(5, rest[1..]) { case None => None case Some((r, rest2)) => Some((Compare(rest[0].c, e, r), rest2)) }
    else if level == 5 then
      match Parse(6, ts) { case None => None case Some((e, rest)) => OtherTail(e, rest) }
    else if level == 6 then
      match Parse(7, ts) { case None => None case Some((e, rest)) => Some(CastTail(e, rest)) }
    else
      match ts[0]
      case TTrue => Some((True, ts[1..]))
      case TDoc => Some((DocCol, ts[1..]))
      case TId => Some((IdCol, ts[1..]))
      case TStr(s) => Some((Str(s), ts[1..]))
      case TParam(i) => Some((Param(i), ts[1..]))
      case TLp =>
        (match Parse(0, ts[1..])
         case None => None
         case Some((e, rest)) => if rest != [] && rest[0] == TRp then Some((Group(e), rest[1..])) else None)
      case _ => None
  }

  /** Operands of the next level separated by OR (level 0) or AND (level 1). */
  function ParseList(level: nat, ts: Tokens): (r: Option<(seq<Expr>, Tokens)>)
    requires level <= 1
    ensures r.Some? ==> |r.value.1| < |ts| && |r.value.0| >= 1
    decreases |ts|, 8 - level - 1, 1
  {
    var sep := if level == 0 then TOr else TAnd;
    match Parse(level + 1, ts)
    case None => None
    case Some((e, rest)) =>
      if rest != [] && rest[0] == sep then
        match ParseList(level, rest[1..]) { case None => None case Some((es, rest2)) => Some(([e] + es, rest2)) }
      else Some(([e], rest))
  }

  /** Left-associative chain of `->`, `->>`, `#>`, `#>>`, `@>`, `~`. */
  function OtherTail(l: Expr, ts: Tokens): (r: Option<(Expr, Tokens)>)
    ensures r.Some? ==> |r.value.1| <= |ts|
    decreases |ts|, 0, 0
  {
    if ts == [] || !ts[0].TOther? then Some((l, ts))
    else match Parse(6, ts[1..]) { case None => None case Some((r, rest)) => OtherTail(Infix(ts[0].op, l, r), rest) }
  }

  function CastTail(e: Expr, ts: Tokens): (r: (Expr, Tokens))
    ensures |r.1| <= |ts|
    decreases |ts|, 0, 0
  {
    if ts == [] || !ts[0].TCast? then (e, ts) else CastTail(Cast(e, ts[0].t), ts[1..])
  }

  // ----- reading back -----

  /** No token of the given level or tighter continues the expression. */
  predicate Ends(level: int, rest: Tokens) {
    rest == [] || TokenLevel(rest[0]) < level
  }

  lemma {:induction false} FirstToken(e: Expr)
    requires Canonical(e)
    ensures Render(e) != []
    ensures Level(e) >= 3 ==> Render(e)[0] != TNot
    ensures Render(e)[0] != TAny
  {
    match e
    case Cast(e1, _) => FirstToken(e1);
    case Infix(_, l, _) => FirstToken(l);
    case Compare(_, l, _) => FirstToken(l);
    case EqAny(l, _) => FirstToken(l);
    case IsNull(e1, _) => FirstToken(e1);
    case Distinct(l, _) => FirstToken(l);
    case And(es) => FirstToken(es[0]);
    case Or(es) => FirstToken(es[0]);
    case _ =>
  }

  /** An expression of a tighter level is an expression of this level. */
  lemma PassUp(level: nat, ts: Tokens, e: Expr, rest: Tokens)
    requires level <= 6 && ts != [] && (level == 2 ==> ts[0] != TNot)
    requires Parse(level + 1, ts) == Some((e, rest)) && Ends(level, rest)
    ensures Parse(level, ts) == Some((e, rest))
  {
    if level <= 1 {
      assert ParseList(level, ts) == Some(([e], rest));
    }
  }

  lemma CompareStep(ts: Tokens, c: Cmp, l: Expr, more: Tokens, r: Expr, rest: Tokens)
    requires ts != [] && more != [] && more[0] != TAny
    requires Parse(5, ts) == Some((l, [TCmp(c)] + more)) && Parse(5, more) == Some((r, rest))
    ensures Parse(4, ts) == Some((Compare(c, l, r), rest))
  {
    var tail := [TCmp(c)] + more;
    assert tail[1..] == more;
    assert |tail| >= 3 ==> tail[..3][1] == more[0];
  }

  lemma AnyStep(ts: Tokens, l: Expr, more: Tokens, arr: Expr, rest: Tokens)
    requires ts != [] && Parse(5, ts) == Some((l, [TCmp(Eq), TAny, TLp] + more))
    requires Parse(0, more) == Some((arr, [TRp] + rest))
    ensures Parse(4, ts) == Some((EqAny(l, arr), rest))
  {
    var tail := [TCmp(Eq), TAny, TLp] + more;
    assert tail[3..] == more && tail[..3] == [TCmp(Eq), TAny, TLp];
    assert ([TRp] + rest)[1..] == rest;
  }

  lemma IsStep(ts: Tokens, l: Expr, t: Token, more: Tokens)
    requires ts != [] && Parse(4, ts) == Some((l, [t] + more))
    ensures t.TIsNull? ==> Parse(3, ts) == Some((IsNull(l, t.positive), more))
    ensures t.TDistinct? && Parse(4, more).Some? ==>
              Parse(3, ts) == Some((Distinct(l, Parse(4, more).value.0), Parse(4, more).value.1))
  {
    assert ([t] + more)[1..] == more;
  }

  lemma GroupStep(ts: Tokens, e: Expr, rest: Tokens)
    requires Parse(0, ts) == Some((e, [TRp] + rest))
    ensures Parse(7, [TLp] + ts) == Some((Group(e), rest))
  {
    assert ([TLp] + ts)[1..] == ts;
    assert ([TRp] + rest)[1..] == rest;
  }

  lemma NotStep(ts: Tokens, e: Expr, rest: Tokens)
    requires Parse(2, ts) == Some((e, rest))
    ensures Parse(2, [TNot] + ts) == Some((Not(e), rest))
  {
    assert ([TNot] + ts)[1..] == ts;
  }

  lemma ListStep(level: nat, ts: Tokens, es: seq<Expr>, rest: Tokens)
    requires level <= 1 && ts != [] && ParseList(level, ts) == Some((es, rest))
    ensures Parse(level, ts) == Some((if level == 0 then MkOr(es) else MkAnd(es), rest))
  {
  }

  lemma {:induction false} ReadsBack(level: nat, e: Expr, rest: Tokens)
    requires level <= 7 && Canonical(e) && Level(e) >= level && Ends(level, rest)
    ensures Parse(level, Render(e) + rest) == Some((e, rest))
    decreases e, 8 - level, 1
  {
    var ts := Render(e) + rest;
    FirstToken(e);
    assert ts[0] == Render(e)[0];
    if level == 5 && Level(e) == 5 {
      OtherReadsBack(e, rest);
    } else if level == 6 && Level(e) == 6 {
      CastReadsBack(e, rest);
    } else if Level(e) > level {
      ReadsBack(level + 1, e, rest);
      PassUp(level, ts, e, rest);
    } else {
      OperatorReadsBack(e, rest);
    }
  }

  lemma {:induction false} OperatorReadsBack(e: Expr, rest: Tokens)
    requires Canonical(e) && Ends(Level(e), rest) && Level(e) != 5 && Level(e) != 6
    ensures Parse(Level(e), Render(e) + rest) == Some((e, rest))
    decreases e, 0
  {
    hide Parse, ParseList;
    FirstToken(e);
    match e
    case And(es) =>
      ListReadsBack(1, es, rest);
      ListStep(1, Render(e) + rest, es, rest);
    case Or(es) =>
      ListReadsBack(0, es, rest);
      ListStep(0, Render(e) + rest, es, rest);
    case Not(e1) =>
      ReadsBack(2, e1, rest);
      NotStep(Render(e1) + rest, e1, rest);
      assert Render(e) + rest == [TNot] + (Render(e1) + rest);
    case IsNull(e1, _) => IsReadsBack(e, e1, rest);
    case Distinct(l, _) => IsReadsBack(e, l, rest);
    case Compare(_, _, _) => CompareReadsBack(e, rest);
    case EqAny(_, _) => AnyReadsBack(e, rest);
    case Group(e1) =>
      ReadsBack(0, e1, [TRp] + rest);
      GroupStep(Render(e1) + ([TRp] + rest), e1, rest);
      assert Render(e) + rest == [TLp] + (Render(e1) + ([TRp] + rest));
    case _ => LeafReadsBack(e, rest);
  }

  lemma LeafReadsBack(e: Expr, rest: Tokens)
    requires e.True? || e.DocCol? || e.IdCol? || e.Str? || e.Param?
    ensures Parse(7, Render(e) + rest) == Some((e, rest))
  {
    assert (Render(e) + rest)[1..] == rest;
  }

  /** The text of a condition, and what makes it canonical, one level deep. */
  lemma Unfolded(e: Expr)
    requires Canonical(e)
    ensures e.IsNull? ==> Render(e) == Render(e.e) + [TIsNull(e.positive)] && Canonical(e.e) && Level(e.e) >= 4
    ensures e.Distinct? ==> Render(e) == Render(e.l) + [TDistinct] + Render(e.r) && Canonical(e.l) && Canonical(e.r) && Level(e.l) >= 4 && Level(e.r) >= 4
    ensures e.Compare? ==> Render(e) == Render(e.l) + [TCmp(e.c)] + Render(e.r) && Canonical(e.l) && Canonical(e.r) && Level(e.l) >= 5 && Level(e.r) >= 5
    ensures e.EqAny? ==> Render(e) == Render(e.l) + [TCmp(Eq), TAny, TLp] + Render(e.arr) + [TRp] && Canonical(e.l) && Canonical(e.arr) && Level(e.l) >= 5
    ensures Level(e) >= 0
  {
  }

  lemma {:induction false} IsReadsBack(e: Expr, l: Expr, rest: Tokens)
    requires Canonical(e) && Ends(3, rest)
    requires (e.IsNull? && e.e == l) || (e.Distinct? && e.l == l)
    ensures Parse(3, Render(e) + rest) == Some((e, rest))
    decreases e, 0, 0
  {
    hide Parse, Render, Canonical;
    Unfolded(e);
    var t := if e.IsNull? then TIsNull(e.positive) else TDistinct;
    var more := if e.IsNull? then rest else Render(e.r) + rest;
    assert Render(e) + rest == Render(l) + ([t] + more);
    FirstToken(l);
    ReadsBack(4, l, [t] + more);
    if e.Distinct? {
      ReadsBack(4, e.r, rest);
    }
    IsStep(Render(l) + ([t] + more), l, t, more);
  }

  lemma {:induction false} CompareReadsBack(e: Expr, rest: Tokens)
    requires e.Compare? && Canonical(e) && Ends(4, rest)
    ensures Parse(4, Render(e) + rest) == Some((e, rest))
    decreases e, 0, 0
  {
    hide Parse, Render, Canonical;
    Unfolded(e);
    var more := Render(e.r) + rest;
    assert Render(e) + rest == Render(e.l) + ([TCmp(e.c)] + more);
    FirstToken(e.l);
    FirstToken(e.r);
    ReadsBack(5, e.l, [TCmp(e.c)] + more);
    ReadsBack(5, e.r, rest);
    CompareStep(Render(e.l) + ([TCmp(e.c)] + more), e.c, e.l, more, e.r, rest);
  }

  lemma {:induction false} AnyReadsBack(e: Expr, rest: Tokens)
    requires e.EqAny? && Canonical(e) && Ends(4, rest)
    ensures Parse(4, Render(e) + rest) == Some((e, rest))
    decreases e, 0, 0
  {
    hide Parse, Render, Canonical;
    Unfolded(e);
    Unfolded(e.arr);
    var more := Render(e.arr) + ([TRp] + rest);
    assert Render(e) + rest == Render(e.l) + ([TCmp(Eq), TAny, TLp] + more);
    FirstToken(e.l);
    ReadsBack(5, e.l, [TCmp(Eq), TAny, TLp] + more);
    ReadsBack(0, e.arr, [TRp] + rest);
    AnyStep(Render(e.l) + ([TCmp(Eq), TAny, TLp] + more), e.l, more, e.arr, rest);
  }

  lemma {:induction false} OtherReadsBack(e: Expr, rest: Tokens)
    requires Canonical(e) && Level(e) >= 5 && Ends(6, rest)
    ensures Parse(5, Render(e) + rest) == OtherTail(e, rest)
    decreases e, 3, 0
  {
    FirstToken(e);
    if Level(e) >= 6 {
      ReadsBack(6, e, rest);
    } else {
      var more := Render(e.r) + rest;
      var tail := [TOther(e.op)] + more;
      assert Render(e) + rest == Render(e.l) + tail;
      OtherReadsBack(e.l, tail);
      ReadsBack(6, e.r, rest);
      assert tail[1..] == more;
    }
  }

  lemma {:induction false} CastReadsBack(e: Expr, rest: Tokens)
    requires Canonical(e) && Level(e) >= 6
    ensures Parse(6, Render(e) + rest) == Some(CastTail(e, rest))
    decreases e, 2, 0
  {
    FirstToken(e);
    if Level(e) >= 7 {
      ReadsBack(7, e, rest);
    } else {
      var tail := [TCast(e.t)] + rest;
      assert Render(e) + rest == Render(e.e) + tail;
      CastReadsBack(e.e, tail);
      assert tail[1..] == rest;
    }
  }

  lemma {:induction false} ListReadsBack(level: nat, es: seq<Expr>, rest: Tokens)
    requires level <= 1 && es != [] && CanonicalAll(es, level + 1) && Ends(level, rest)
    ensures ParseList(level, RenderList(es, if level == 0 then TOr else TAnd) + rest) == Some((es, rest))
    decreases es, 9
  {
    hide Parse, Render, Canonical, Level;
    var sep := if level == 0 then TOr else TAnd;
    if |es| == 1 {
      ReadsBack(level + 1, es[0], rest);
      assert RenderList(es, sep) == Render(es[0]);
      assert [es[0]] == es;
    } else {
      var more := RenderList(es[1..], sep) + rest;
      assert RenderList(es, sep) + rest == Render(es[0]) + ([sep] + more);
      ReadsBack(level + 1, es[0], [sep] + more);
      ListReadsBack(level, es[1..], rest);
      assert ([sep] + more)[1..] == more;
      assert [es[0]] + es[1..] == es;
    }
  }
}
