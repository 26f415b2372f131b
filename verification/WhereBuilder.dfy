/** `whereBuilder` as it runs: it walks the filter map in sorted key order, appends to the
    argument list and concatenates SQL text.  Each method is proved to emit exactly the text
    and arguments of the specification in `Filter`. */
module WhereBuilding {
  import opened Base
  import opened Ordering
  import opened Sql
  import opened SqlText
  import opened Filter
  import opened FilterText

  /** The result and the argument list agree with the specified output; after an error the
      arguments bound so far stay bound and nothing else is promised. */
  ghost predicate Emits(spec: Result<Out>, before: seq<V>, after: seq<V>, r: Result<Tokens>) {
    match (spec, r)
    case (Ok(out), Ok(ts)) => ts == RenderList(out.parts, TAnd) && after == before + out.args
    case (Err(_), Err(_)) => before <= after
    case _ => false
  }

  lemma EmptyEmits(f: Doc, n: nat, before: seq<V>)
    requires f.fields == map[]
    ensures Emits(TranslateFilter(f, n), before, before, Ok([TTrue]))
  {
    assert RenderList([True], TAnd) == [TTrue];
  }

  lemma KeysAreFilter(f: Doc, n: nat)
    requires f.fields != map[]
    ensures forall k :: k in SortedKeys(f.fields.Keys) ==> k in f.fields
    ensures TranslateFilter(f, n) == TranslateKeys(f, SortedKeys(f.fields.Keys), n)
  {
    hide TranslateKeys;
    SortedKeysFacts(f.fields.Keys);
  }

  /** One round of the loop over the keys: what is emitted and what is still to come. */
  lemma KeysStep(f: Doc, keys: seq<string>, i: nat, total: Result<Out>, done: Out, texts: seq<Tokens>, before: seq<V>, prior: seq<V>, args: seq<V>, t: Result<Tokens>)
    requires i < |keys| && (forall k :: k in keys ==> k in f.fields) && Progress(done, texts, before, prior)
    requires total == Append(Ok(done), TranslateKeys(f, keys[i..], |prior|))
    requires Emits(TranslateKey(f, keys[i], |prior|), prior, args, t)
    ensures t.Err? ==> Emits(total, before, args, t)
    ensures t.Ok? ==> TranslateKey(f, keys[i], |prior|).Ok?
    ensures t.Ok? ==> var first := TranslateKey(f, keys[i], |prior|).value; var next := Out(done.parts + first.parts, done.args + first.args);
      Progress(next, texts + [t.value], before, args) && total == Append(Ok(next), TranslateKeys(f, keys[i + 1..], |args|))
  {
    hide TranslateKey, TranslateKeys, Progress, Emits, Append, RenderList;
    var first := TranslateKey(f, keys[i], |prior|);
    KeysUnfold(f, keys, i, |prior|);
    EmitsMeans(first, prior, args, t);
    AppendSplit(total, done, first, TranslateKeys(f, keys[i + 1..], |prior| + ArgCount(first)));
    ProgressKeeps(done, texts, before, prior);
    if t.Err? {
      FailureEmits(total, before, args, t);
    } else {
      assert |args| == |prior| + ArgCount(first);
      assert first.value.parts != [] by { KeyShape(f, keys[i], |prior|); }
      ProgressStep(done, texts, before, prior, first.value, t.value);
    }
  }

  lemma KeysUnfold(f: Doc, keys: seq<string>, i: nat, n: nat)
    requires i < |keys| && forall k :: k in keys ==> k in f.fields
    ensures var first := TranslateKey(f, keys[i], n);
      TranslateKeys(f, keys[i..], n) == Append(first, TranslateKeys(f, keys[i + 1..], n + ArgCount(first)))
  {
    hide TranslateKey, Append;
    assert keys[i..][1..] == keys[i + 1..];
  }

  lemma EmitsMeans(spec: Result<Out>, before: seq<V>, after: seq<V>, r: Result<Tokens>)
    requires Emits(spec, before, after, r)
    ensures r.Ok? <==> spec.Ok?
    ensures before <= after
    ensures r.Ok? ==> r.value == RenderList(spec.value.parts, TAnd) && after == before + spec.value.args && ArgCount(spec) == |spec.value.args|
  {
  }

  lemma FailureEmits(spec: Result<Out>, before: seq<V>, after: seq<V>, r: Result<Tokens>)
    requires spec.Err? && r.Err? && before <= after
    ensures Emits(spec, before, after, r)
  {
  }

  lemma KeysEnd(f: Doc, keys: seq<string>, total: Result<Out>, done: Out)
    requires (forall k :: k in keys ==> k in f.fields) && exists n: nat :: total == Append(Ok(done), TranslateKeys(f, keys[|keys|..], n))
    ensures total == Ok(done)
  {
    assert keys[|keys|..] == [];
    AppendEmpty(Ok(done));
  }

  /** What the loops have emitted so far: `done`, joined from `texts`, after `before`. */
  ghost predicate Progress(done: Out, texts: seq<Tokens>, before: seq<V>, args: seq<V>) {
    && args == before + done.args
    && Join(texts, [TAnd]) == RenderList(done.parts, TAnd)
    && (texts == [] <==> done.parts == [])
  }

  lemma {:induction false} JoinSnoc(texts: seq<Tokens>, t: Tokens, sep: Tokens)
    requires texts != []
    ensures Join(texts + [t], sep) == Join(texts, sep) + sep + t
  {
    if |texts| == 1 {
      assert (texts + [t])[1..] == [t];
    } else {
      JoinSnoc(texts[1..], t, sep);
      assert (texts + [t])[1..] == texts[1..] + [t];
      assert texts[0] + sep + (Join(texts[1..], sep) + sep + t) == texts[0] + sep + Join(texts[1..], sep) + sep + t;
    }
  }

  lemma ProgressStep(done: Out, texts: seq<Tokens>, before: seq<V>, args: seq<V>, next: Out, t: Tokens)
    requires Progress(done, texts, before, args) && next.parts != [] && t == RenderList(next.parts, TAnd)
    ensures Progress(Out(done.parts + next.parts, done.args + next.args), texts + [t], before, args + next.args)
  {
    assert args + next.args == before + (done.args + next.args);
    if texts == [] {
      assert texts + [t] == [t] && done.parts + next.parts == next.parts;
    } else {
      JoinSnoc(texts, t, [TAnd]);
      RenderAppend(done.parts, next.parts, TAnd);
    }
  }

  lemma NoProgress(before: seq<V>)
    ensures Progress(Out([], []), [], before, before)
  {
    assert before + [] == before;
  }

  lemma ProgressKeeps(done: Out, texts: seq<Tokens>, before: seq<V>, args: seq<V>)
    requires Progress(done, texts, before, args)
    ensures |args| == |before| + |done.args| && before <= args
  {
  }

  lemma Finished(done: Out, texts: seq<Tokens>, before: seq<V>, args: seq<V>)
    requires Progress(done, texts, before, args)
    ensures Emits(Ok(done), before, args, Ok(Join(texts, [TAnd])))
  {
  }

  lemma AppendSplit(total: Result<Out>, done: Out, first: Result<Out>, rest: Result<Out>)
    requires total == Append(Ok(done), Append(first, rest))
    ensures first.Err? ==> total.Err?
    ensures first.Ok? ==> total == Append(Ok(Out(done.parts + first.value.parts, done.args + first.value.args)), rest)
  {
    if first.Ok? && rest.Ok? {
      assert done.parts + (first.value.parts + rest.value.parts) == done.parts + first.value.parts + rest.value.parts;
      assert done.args + (first.value.args + rest.value.args) == done.args + first.value.args + rest.value.args;
    }
  }

  lemma AppendEmpty(r: Result<Out>)
    ensures Append(Ok(Out([], [])), r) == r
    ensures r.Ok? ==> Append(r, Ok(Out([], []))) == r
  {
    if r.Ok? {
      assert [] + r.value.parts == r.value.parts && [] + r.value.args == r.value.args;
      assert r.value.parts + [] == r.value.parts && r.value.args + [] == r.value.args;
    }
  }

  class WhereBuilder {
    var args: seq<V>

    constructor (initial: seq<V>)
      ensures args == initial
    {
      args := initial;
    }

    /** Appends the argument; its placeholder is its one-based position. */
    method Bind(v: V) returns (p: Expr)
      modifies this
      ensures args == old(args) + [v] && p == Param(|old(args)| + 1)
    {
      args := args + [v];
      p := Param(|args|);
    }

    /** A comparison of the id column, which takes only a string. */
    method IdCompare(c: Cmp, v: Val) returns (r: Result<Tokens>)
      modifies this
      ensures Emits(if v.VStr? then One(Compare(c, IdCol, Param(|old(args)| + 1)), [Text(v.s)]) else Err("_id wants string"), old(args), args, r)
    {
      if !v.VStr? { return Err("_id wants string"); }
      var p := Bind(Text(v.s));
      r := Ok([TId, TCmp(c)] + Render(p));
      ghost var e := Compare(c, IdCol, p);
      assert Render(e) == [TId] + [TCmp(c)] + Render(p);
      assert RenderList([e], TAnd) == Render(e);
    }

    method IdOp(op: Operator, v: Val) returns (r: Result<Tokens>)
      modifies this
      ensures Emits(TranslateId(op, v, |old(args)|), old(args), args, r)
    {
      match op
      case OEq => r := IdCompare(Eq, v);
      case ONe => r := IdCompare(Ne, v);
      case OCmp(c) => r := IdCompare(c, v);
      case OIn =>
        match StringList(v) {
          case Err(e) => r := Err(e);
          case Ok(ss) =>
            var p := Bind(Texts(ss));
            r := Ok([TId, TCmp(Eq), TAny, TLp] + Render(p) + [TRp]);
            assert Render(EqAny(IdCol, p)) == [TId, TCmp(Eq), TAny, TLp] + Render(p) + [TRp];
        }
      case ONin =>
        match StringList(v) {
          case Err(e) => r := Err(e);
          case Ok(ss) =>
            var p := Bind(Texts(ss));
            r := Ok([TNot, TLp] + ([TId, TCmp(Eq), TAny, TLp] + Render(p) + [TRp]) + [TRp]);
            ghost var any := EqAny(IdCol, p);
            assert Render(any) == [TId, TCmp(Eq), TAny, TLp] + Render(p) + [TRp];
            assert Render(Group(any)) == [TLp] + Render(any) + [TRp];
            assert Render(Not(Group(any))) == [TNot] + Render(Group(any));
        }
      case _ => r := Err("unsupported operator on _id");
    }

    /** The comparison operators: extraction, operator, placeholder. */
    method Typed(path: string, v: Val, op: Token) returns (r: Result<Tokens>)
      modifies this
      ensures match TypedExpr(path, v)
              case Err(_) => r.Err? && args == old(args)
              case Ok((e, arg)) => r == Ok(Render(e) + [op] + [TParam(|old(args)| + 1)]) && args == old(args) + [arg]
    {
      match TypedExpr(path, v)
      case Err(e) => r := Err(e);
      case Ok((e, arg)) =>
        var p := Bind(arg);
        r := Ok(Render(e) + [op] + Render(p));
        assert Render(p) == [TParam(|old(args)| + 1)];
    }

    method DocOp(path: string, op: Operator, v: Val) returns (r: Result<Tokens>)
      modifies this
      ensures Emits(TranslateDocOp(path, op, v, |old(args)|), old(args), args, r)
    {
      hide TextExpr, JsonExpr, NumExpr, TimeExpr, PathLit;
      ghost var p, spec := Param(|args| + 1), TranslateDocOp(path, op, v, |args|);
      assert Render(p) == [TParam(|args| + 1)];
      assert spec.Ok? ==> RenderList(spec.value.parts, TAnd) == Render(spec.value.parts[0]);
      match op
      case OEq =>
        if v.VNil? {
          r := Ok(NullTest(path));
          NullTestText(path);
        } else {
          r := Typed(path, v, TCmp(Eq));
        }
      case ONe =>
        if v.VNil? {
          r := Ok([TNot] + NullTest(path));
          NullTestText(path);
        } else {
          r := Typed(path, v, TDistinct);
        }
      case OCmp(c) => r := Typed(path, v, TCmp(c));
      case OExists =>
        if v.VBool? { r := Ok(Render(JsonExpr(path)) + [TIsNull(!v.b)]); } else { r := Err("$exists wants bool"); }
      case OIn => r := Membership(path, v, false);
      case ONin => r := Membership(path, v, true);
      case OContains =>
        if Encodable(v) {
          var q := Bind(JsonV(JArr([Encode(v)])));
          r := Ok(Render(JsonExpr(path)) + [TOther(Contains)] + Render(q) + [TCast(Jsonb)]);
          ContainsText(JsonExpr(path), q);
        } else {
          r := Err("encode value");
        }
    }

    /** `$in` and `$nin` over one list. */
    method Membership(path: string, v: Val, negated: bool) returns (r: Result<Tokens>)
      modifies this
      ensures Emits(TranslateDocOp(path, if negated then ONin else OIn, v, |old(args)|), old(args), args, r)
    {
      hide TextExpr, JsonExpr, NumExpr, TimeExpr, PathLit;
      ghost var p, spec := Param(|args| + 1), TranslateDocOp(path, if negated then ONin else OIn, v, |args|);
      assert Render(p) == [TParam(|args| + 1)];
      assert spec.Ok? ==> RenderList(spec.value.parts, TAnd) == Render(spec.value.parts[0]);
      match InList(path, v) {
        case Err(e) => r := Err(e);
        case Ok((e, arr)) =>
          var q := Bind(arr);
          if negated {
            r := Ok([TLp] + Render(e) + [TIsNull(true), TOr, TNot, TLp] + Render(e) + [TCmp(Eq), TAny, TLp] + Render(q) + [TRp, TRp, TRp]);
            NotAnyText(e, q);
          } else {
            r := Ok(Render(e) + [TCmp(Eq), TAny, TLp] + Render(q) + [TRp]);
          }
      }
    }

    method Op(path: string, op: Operator, v: Val) returns (r: Result<Tokens>)
      modifies this
      ensures Emits(TranslateOp(path, op, v, |old(args)|), old(args), args, r)
    {
      if IsId(path) { r := IdOp(op, v); } else { r := DocOp(path, op, v); }
    }

    method RegexOp(path: string, pattern: Val, options: Option<Val>) returns (r: Result<Tokens>)
      modifies this
      ensures Emits(TranslateRegex(path, pattern, options, |old(args)|), old(args), args, r)
    {
      if !pattern.VStr? { return Err("$regex wants string"); }
      var op := Match;
      if IgnoreCase(options) { op := IMatch; }
      var p := Bind(Text(pattern.s));
      r := Ok(Render(TextExpr(path)) + [TOther(op)] + Render(p));
    }

    method Entry(path: string, ops: Doc, op: string) returns (r: Result<Tokens>)
      requires op in ops.fields && op != "$options"
      modifies this
      ensures Emits(TranslateEntry(path, ops, op, |old(args)|), old(args), args, r)
    {
      if op == "$regex" {
        r := RegexOp(path, ops.fields[op], Get(ops, "$options"));
      } else if OperatorOf(op).None? {
        r := Err("unsupported operator");
      } else {
        r := Op(path, OperatorOf(op).value, ops.fields[op]);
      }
    }

    /** `isOpMap`: one key, whichever the map yields first, decides. */
    static method LooksLikeOps(f: Doc) returns (b: bool)
      ensures b ==> IsOpMap(f)
      ensures !b && IsOpMap(f) ==> exists k :: k in f.fields && !HasPrefix(k, "$")
    {
      if f.fields == map[] { return false; }
      var k :| k in f.fields.Keys;
      b := HasPrefix(k, "$");
    }

    method Field(path: string, v: Val) returns (r: Result<Tokens>)
      modifies this
      ensures Emits(TranslateField(path, v, |old(args)|), old(args), args, r)
    {
      var isOps := false;
      if v.VMap? { isOps := LooksLikeOps(v.f); }
      if !isOps {
        // a map that mixes operators and fields is refused either way
        if v.VMap? && IsOpMap(v.f) { MixedFails(path, v, |args|); }
        r := Op(path, OEq, v);
        return;
      }
      var keys := CollectSorted(v.f.fields.Keys);
      SortedKeysFacts(v.f.fields.Keys);
      r := Entries(path, v.f, keys);
    }

    method Entries(path: string, ops: Doc, keys: seq<string>) returns (r: Result<Tokens>)
      requires forall k :: k in keys ==> k in ops.fields
      modifies this
      ensures var spec := TranslateEntries(path, ops, keys, |old(args)|);
        Emits(if spec.Ok? && spec.value.parts == [] then Ok(Out([Blank], spec.value.args)) else spec, old(args), args, r)
    {
      hide TranslateEntry;
      ghost var n, before := |args|, args;
      ghost var total := TranslateEntries(path, ops, keys, n);
      ghost var done := Out([], []);
      var texts: seq<Tokens> := [];
      AppendEmpty(total);
      assert keys[0..] == keys;
      for i := 0 to |keys|
        invariant Progress(done, texts, before, args)
        invariant total == Append(Ok(done), TranslateEntries(path, ops, keys[i..], n + |done.args|))
      {
        ghost var first := TranslateEntry(path, ops, keys[i], |args|);
        assert keys[i..][1..] == keys[i + 1..];
        AppendSplit(total, done, first, TranslateEntries(path, ops, keys[i + 1..], |args| + ArgCount(first)));
        if keys[i] == "$options" {
          OptionsEmitNothing(path, ops, |args|);
          assert Out(done.parts + [], done.args + []) == done;
          continue;
        }
        EntryEmits(path, ops, keys[i], |args|);
        ghost var prior := args;
        var t := Entry(path, ops, keys[i]);
        if t.Err? { return Err(t.error); }
        ProgressStep(done, texts, before, prior, first.value, t.value);
        texts := texts + [t.value];
        done := Out(done.parts + first.value.parts, done.args + first.value.args);
      }
      AppendEmpty(Ok(done));
      assert keys[|keys|..] == [];
      r := Ok(Join(texts, [TAnd]));
    }

    /** `filter`: the conjunction of the entries in key order. */
    method Filter(f: Doc) returns (r: Result<Tokens>)
      modifies this
      ensures Emits(TranslateFilter(f, |old(args)|), old(args), args, r)
      decreases f, 1
    {
      if f.fields == map[] {
        EmptyEmits(f, |args|, args);
        return Ok([TTrue]);
      }
      var keys := CollectSorted(f.fields.Keys);
      SortedKeysFacts(f.fields.Keys);
      KeysAreFilter(f, |args|);
      hide TranslateFilter, TranslateKeys, Emits;
      r := Keys(f, keys);
    }

    method Keys(f: Doc, keys: seq<string>) returns (r: Result<Tokens>)
      requires forall k :: k in keys ==> k in f.fields
      modifies this
      ensures Emits(TranslateKeys(f, keys, |old(args)|), old(args), args, r)
      decreases f, 0, 1
    {
      hide TranslateKey, TranslateKeys, Progress, Emits;
      ghost var before := args;
      ghost var total := TranslateKeys(f, keys, |args|);
      ghost var done := Out([], []);
      var texts: seq<Tokens> := [];
      AppendEmpty(total);
      NoProgress(before);
      assert keys[0..] == keys;
      for i := 0 to |keys|
        invariant Progress(done, texts, before, args)
        invariant total == Append(Ok(done), TranslateKeys(f, keys[i..], |args|))
      {
        ghost var prior := args;
        var t := Key(f, keys[i]);
        KeysStep(f, keys, i, total, done, texts, before, prior, args, t);
        if t.Err? { return Err(t.error); }
        ghost var first := TranslateKey(f, keys[i], |prior|).value;
        texts := texts + [t.value];
        done := Out(done.parts + first.parts, done.args + first.args);
      }
      KeysEnd(f, keys, total, done);
      Finished(done, texts, before, args);
      r := Ok(Join(texts, [TAnd]));
    }

    method Key(f: Doc, k: string) returns (r: Result<Tokens>)
      requires k in f.fields
      modifies this
      ensures Emits(TranslateKey(f, k, |old(args)|), old(args), args, r)
      decreases f, 0, 0
    {
      hide TranslateField, TranslateSubs;
      var v := f.fields[k];
      if k == "$or" || k == "$and" {
        if !IsFilterList(v) { return Err("wants a list of filters"); }
        if SubCount(v) == 0 { return Err("empty list"); }
        ghost var spec := TranslateSubs(v, 0, |args|);
        var texts := Subs(v, if k == "$or" then TOr else TAnd);
        if texts.Err? { return Err(texts.error); }
        SubsShape(v, 0, |old(args)|);
        r := Ok([TLp] + texts.value + [TRp]);
        ListText(spec.value.parts, k == "$or");
      } else if HasPrefix(k, "$") {
        r := Err("unsupported top-level operator");
      } else {
        r := Field(k, v);
      }
    }

    /** The sub-filters, each in parentheses, joined by the given connective. */
    method Subs(v: Val, sep: Token) returns (r: Result<Tokens>)
      requires IsFilterList(v)
      modifies this
      ensures match (TranslateSubs(v, 0, |old(args)|), r)
              case (Ok(out), Ok(ts)) => ts == RenderList(out.parts, sep) && args == old(args) + out.args
              case (Err(_), Err(_)) => old(args) <= args
              case _ => false
      decreases v, 1
    {
      hide TranslateFilter, MkAnd, Join, RenderList;
      ghost var n, before := |args|, args;
      ghost var total := TranslateSubs(v, 0, n);
      ghost var done := Out([], []);
      var texts: seq<Tokens> := [];
      AppendEmpty(total);
      NothingJoined(sep);
      for i := 0 to SubCount(v)
        invariant args == before + done.args
        invariant Join(texts, [sep]) == RenderList(done.parts, sep) && |texts| == |done.parts|
        invariant total == Append(Ok(done), TranslateSubs(v, i, n + |done.args|))
      {
        ghost var spec := TranslateFilter(Sub(v, i), |args|);
        ghost var first := match spec case Err(e) => Err(e) case Ok(out) => One(Group(MkAnd(out.parts)), out.args);
        AppendSplit(total, done, first, TranslateSubs(v, i + 1, |args| + ArgCount(first)));
        var t := Filter(Sub(v, i));
        if t.Err? { return Err(t.error); }
        ghost var e := Group(MkAnd(spec.value.parts));
        MkAndText(spec.value.parts);
        SnocText(done.parts, texts, e, [TLp] + t.value + [TRp], sep);
        texts := texts + [[TLp] + t.value + [TRp]];
        done := Out(done.parts + [e], done.args + spec.value.args);
      }
      AppendEmpty(Ok(done));
      r := Ok(Join(texts, [sep]));
    }
  }

  // ----- the text of single conditions -----

  /** Absent or JSON null, in parentheses. */
  function NullTest(path: string): Tokens {
    var p := Render(JsonExpr(path));
    [TLp] + p + [TIsNull(true), TOr] + p + [TCmp(Eq), TStr("null"), TCast(Jsonb), TRp]
  }

  lemma OrPairText(a: Expr, b: Expr)
    ensures Render(Group(Or([a, b]))) == [TLp] + Render(a) + [TOr] + Render(b) + [TRp]
  {
    hide Render, RenderList;
    PairText(a, b);
    GroupText([a, b]);
    var x, y := Render(a), Render(b);
    assert [TLp] + (x + [TOr] + y) + [TRp] == [TLp] + x + [TOr] + y + [TRp];
  }

  lemma GroupText(es: seq<Expr>)
    ensures Render(Group(Or(es))) == [TLp] + RenderList(es, TOr) + [TRp]
  {
    hide RenderList;
    assert Render(Or(es)) == RenderList(es, TOr);
  }

  lemma PairText(a: Expr, b: Expr)
    ensures RenderList([a, b], TOr) == Render(a) + [TOr] + Render(b)
  {
    hide Render;
    var es, last := [a, b], [b];
    assert es[1..] == last;
    assert RenderList(last, TOr) == Render(b);
    assert RenderList(es, TOr) == Render(a) + [TOr] + RenderList(last, TOr);
  }

  lemma NullTestText(path: string)
    ensures Render(AbsentOrNull(path)) == NullTest(path)
    ensures Render(Not(AbsentOrNull(path))) == [TNot] + NullTest(path)
  {
    hide JsonExpr;
    var j, nul := JsonExpr(path), Cast(Str("null"), Jsonb);
    OrPairText(IsNull(j, true), Compare(Eq, j, nul));
    assert Render(nul) == [TStr("null"), TCast(Jsonb)];
    assert Render(Compare(Eq, j, nul)) == Render(j) + [TCmp(Eq)] + Render(nul);
    assert Render(IsNull(j, true)) == Render(j) + [TIsNull(true)];
    NullTestTokens(Render(j));
  }

  lemma NullTestTokens(x: Tokens)
    ensures [TLp] + (x + [TIsNull(true)]) + [TOr] + (x + [TCmp(Eq)] + [TStr("null"), TCast(Jsonb)]) + [TRp]
         == [TLp] + x + [TIsNull(true), TOr] + x + [TCmp(Eq), TStr("null"), TCast(Jsonb), TRp]
  {
  }

  lemma NotAnyText(e: Expr, p: Expr)
    ensures Render(NotAny(e, p)) ==
      [TLp] + Render(e) + [TIsNull(true), TOr, TNot, TLp] + Render(e) + [TCmp(Eq), TAny, TLp] + Render(p) + [TRp, TRp, TRp]
  {
    var any := EqAny(e, p);
    OrPairText(IsNull(e, true), Not(Group(any)));
    assert Render(Not(Group(any))) == [TNot] + ([TLp] + Render(any) + [TRp]) by {
      assert Render(Group(any)) == [TLp] + Render(any) + [TRp];
    }
    var x, y := Render(e), Render(p);
    assert Render(IsNull(e, true)) == x + [TIsNull(true)];
    assert Render(any) == x + [TCmp(Eq), TAny, TLp] + y + [TRp];
    NotAnyTokens(x, y);
  }

  lemma NotAnyTokens(x: Tokens, y: Tokens)
    ensures [TLp] + (x + [TIsNull(true)]) + [TOr] + ([TNot] + ([TLp] + (x + [TCmp(Eq), TAny, TLp] + y + [TRp]) + [TRp])) + [TRp]
         == [TLp] + x + [TIsNull(true), TOr, TNot, TLp] + x + [TCmp(Eq), TAny, TLp] + y + [TRp, TRp, TRp]
  {
  }

  lemma ContainsText(j: Expr, p: Expr)
    ensures Render(Infix(Contains, j, Cast(p, Jsonb))) == Render(j) + [TOther(Contains)] + Render(p) + [TCast(Jsonb)]
  {
    assert Render(Cast(p, Jsonb)) == Render(p) + [TCast(Jsonb)];
  }

  lemma ListText(parts: seq<Expr>, anyOf: bool)
    requires parts != []
    ensures var e := Group(if anyOf then MkOr(parts) else MkAnd(parts));
      RenderList([e], TAnd) == [TLp] + RenderList(parts, if anyOf then TOr else TAnd) + [TRp]
  {
    var e := if anyOf then MkOr(parts) else MkAnd(parts);
    assert Render(e) == RenderList(parts, if anyOf then TOr else TAnd);
    assert RenderList([Group(e)], TAnd) == Render(Group(e));
  }

  lemma NothingJoined(sep: Token)
    ensures Join([], [sep]) == RenderList([], sep)
  {
  }

  lemma MkAndText(parts: seq<Expr>)
    ensures Render(Group(MkAnd(parts))) == [TLp] + RenderList(parts, TAnd) + [TRp]
  {
    assert Render(MkAnd(parts)) == RenderList(parts, TAnd);
  }

  lemma SnocText(done: seq<Expr>, texts: seq<Tokens>, e: Expr, t: Tokens, sep: Token)
    requires Join(texts, [sep]) == RenderList(done, sep) && |texts| == |done| && t == Render(e)
    ensures Join(texts + [t], [sep]) == RenderList(done + [e], sep)
  {
    assert RenderList([e], sep) == Render(e);
    if texts == [] {
      assert texts + [t] == [t] && done + [e] == [e];
    } else {
      JoinSnoc(texts, t, [sep]);
      RenderAppend(done, [e], sep);
    }
  }

  lemma OptionsEmitNothing(path: string, ops: Doc, n: nat)
    requires "$options" in ops.fields
    ensures TranslateEntry(path, ops, "$options", n) == Ok(Out([], []))
  {
  }

  lemma EntryEmits(path: string, ops: Doc, op: string, n: nat)
    requires op in ops.fields && op != "$options"
    ensures TranslateEntry(path, ops, op, n).Ok? ==> TranslateEntry(path, ops, op, n).value.parts != []
  {
    if TranslateEntry(path, ops, op, n).Ok? {
      EntryShape(path, ops, op, n);
    }
  }

  // ----- maps that mix operators and fields -----

  lemma NoSuchOperator(path: string, ops: Doc, k: string, n: nat)
    requires k in ops.fields && !HasPrefix(k, "$")
    ensures TranslateEntry(path, ops, k, n).Err?
  {
    assert k != "$options" && k != "$regex" && OperatorOf(k).None? by {
      if k != "" { assert k[..1] == [k[0]] && k[0] != '$'; }
    }
  }

  lemma {:induction false} EntriesFail(path: string, ops: Doc, keys: seq<string>, k: string, n: nat)
    requires (forall x :: x in keys ==> x in ops.fields) && k in keys && !HasPrefix(k, "$")
    ensures TranslateEntries(path, ops, keys, n).Err?
  {
    hide TranslateEntry;
    if keys[0] == k {
      NoSuchOperator(path, ops, k, n);
    } else {
      EntriesFail(path, ops, keys[1..], k, n + ArgCount(TranslateEntry(path, ops, keys[0], n)));
    }
  }

  /** Whichever key `isOpMap` happens to look at, a mixed map is an error: as an operator map it
      has an unknown operator, as a value it cannot be compared with. */
  lemma MixedFails(path: string, v: Val, n: nat)
    requires v.VMap? && exists k :: k in v.f.fields && !HasPrefix(k, "$")
    ensures IsOpMap(v.f) ==> TranslateField(path, v, n).Err?
    ensures TranslateOp(path, OEq, v, n).Err?
  {
    hide TranslateEntries, TranslateOp;
    SortedKeysFacts(v.f.fields.Keys);
    var k :| k in v.f.fields && !HasPrefix(k, "$");
    EntriesFail(path, v.f, SortedKeys(v.f.fields.Keys), k, n);
    NoComparison(path, v, n);
  }

  lemma NoComparison(path: string, v: Val, n: nat)
    requires v.VMap?
    ensures TranslateOp(path, OEq, v, n).Err?
  {
    hide TextExpr, JsonExpr, NumExpr, TimeExpr, InList, Encode;
  }
}
