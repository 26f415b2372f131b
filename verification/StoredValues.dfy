/** What an update leaves in a document: the stored form of a value, read back as a reader of
    free-form documents reads it, and what is found at every path afterwards. */
module StoredValues {
  import opened Base
  import opened Sql
  import opened Filter
  import opened SetUnset
  import opened UpdateSql
  import opened UpdateOrder
  import opened Statements

  // ----- the stored form, read back -----

  /** A stored value decoded into a free-form target. */
  function Read(j: Json): Val {
    match j
    case JNull => VNil
    case JBool(b) => VBool(b)
    case JNum(n) => VFloat(n)
    case JStr(s) => VStr(s)
    case JArr(es) => VList(seq(|es|, i requires 0 <= i < |es| => Read(es[i])))
    case JObj(fields) => VMap(Doc(map k | k in fields :: Read(fields[k])))
  }

  /** The value without its Go kind: a number is a number, a time its text, a typed list a list. */
  function Plain(v: Val): Val {
    match v
    case VInt(n) => VFloat(n as real)
    case VDec(d) => VFloat(d)
    case VTime(_, text) => VStr(text)
    case VStrs(ss) => VList(seq(|ss|, i requires 0 <= i < |ss| => VStr(ss[i])))
    case VList(es) => VList(seq(|es|, i requires 0 <= i < |es| => Plain(es[i])))
    case VMap(f) => VMap(Doc(map k | k in f.fields :: Plain(f.fields[k])))
    case VMaps(fs) => VList(seq(|fs|, i requires 0 <= i < |fs| => VMap(Doc(map k | k in fs[i].fields :: Plain(fs[i].fields[k])))))
    case _ => v
  }

  /** A stored value reads back as the value, maps key by key and lists in order. */
  lemma {:induction false} ReadsBack(v: Val)
    requires Encodable(v)
    ensures Read(Encode(v)) == Plain(v)
    decreases v
  {
    match v
    case VList(es) =>
      forall i | 0 <= i < |es| ensures Read(Encode(es[i])) == Plain(es[i]) { ReadsBack(es[i]); }
    case VMap(f) => MapReadsBack(f);
    case VMaps(fs) =>
      forall i | 0 <= i < |fs| ensures Read(EncodeDoc(fs[i])) == Plain(VMap(fs[i])) { MapReadsBack(fs[i]); }
    case _ =>
  }

  lemma {:induction false} MapReadsBack(f: Doc)
    requires forall k :: k in f.fields ==> Encodable(f.fields[k])
    ensures Read(EncodeDoc(f)) == Plain(VMap(f))
    decreases f
  {
    hide Encodable;
    var a, b := Read(EncodeDoc(f)).f.fields, Plain(VMap(f)).f.fields;
    assert a.Keys == f.fields.Keys && b.Keys == f.fields.Keys;
    forall k | k in f.fields ensures a[k] == b[k] { ReadsBack(f.fields[k]); }
    assert a == b;
  }

  // ----- which values can be stored -----

  datatype Hop = Key(k: string) | Index(i: nat)

  /** What lies in a value at a path of keys and positions. */
  function Inside(v: Val, hops: seq<Hop>): Option<Val>
    decreases |hops|
  {
    if hops == [] then Some(v)
    else
      match (v, hops[0])
      case (VMap(f), Key(k)) => if k in f.fields then Inside(f.fields[k], hops[1..]) else None
      case (VList(es), Index(i)) => if i < |es| then Inside(es[i], hops[1..]) else None
      case (VMaps(fs), Index(i)) => if i < |fs| then Inside(VMap(fs[i]), hops[1..]) else None
      case _ => None
  }

  lemma {:induction false} NoOtherInside(v: Val, hops: seq<Hop>)
    requires Encodable(v)
    ensures Inside(v, hops) != Some(VOther)
    decreases |hops|
  {
    if hops != [] {
      match (v, hops[0])
      case (VMap(f), Key(k)) => if k in f.fields { NoOtherInside(f.fields[k], hops[1..]); }
      case (VList(es), Index(i)) => if i < |es| { NoOtherInside(es[i], hops[1..]); }
      case (VMaps(fs), Index(i)) => if i < |fs| { NoOtherInside(VMap(fs[i]), hops[1..]); }
      case _ =>
    }
  }

  lemma {:induction false} OtherInside(v: Val) returns (hops: seq<Hop>)
    requires !Encodable(v)
    ensures Inside(v, hops) == Some(VOther)
  {
    match v
    case VMap(f) =>
      var k :| k in f.fields && !Encodable(f.fields[k]);
      var rest := OtherInside(f.fields[k]);
      hops := [Key(k)] + rest;
    case VList(es) =>
      var i: nat :| i < |es| && !Encodable(es[i]);
      var rest := OtherInside(es[i]);
      hops := [Index(i)] + rest;
    case VMaps(fs) =>
      var i: nat, k :| i < |fs| && k in fs[i].fields && !Encodable(fs[i].fields[k]);
      var rest := OtherInside(fs[i].fields[k]);
      hops := [Index(i), Key(k)] + rest;
      assert hops[1..] == [Key(k)] + rest && hops[1..][1..] == rest;
      assert Inside(v, hops) == Inside(VMap(fs[i]), hops[1..]);
    case _ =>
      hops := [];
  }

  /** A value has a stored form exactly when nothing inside it lacks one, at any depth. */
  lemma EncodableExactly(v: Val)
    ensures Encodable(v) <==> forall hops :: Inside(v, hops) != Some(VOther)
  {
    if Encodable(v) {
      forall hops ensures Inside(v, hops) != Some(VOther) { NoOtherInside(v, hops); }
    } else {
      var hops := OtherInside(v);
    }
  }

  // ----- one operation -----

  /** Every parent along the path is an object. */
  predicate HasParents(j: Json, p: Path)
    decreases |p|
  {
    p != [] && j.JObj? && (|p| == 1 || (p[0] in j.fields && HasParents(j.fields[p[0]], p[1..])))
  }

  lemma ApartTail(p: Path, q: Path)
    requires p != [] && q != [] && p[0] == q[0]
    ensures Apart(p, q) <==> Apart(p[1..], q[1..])
  {
    assert p == [p[0]] + p[1..] && q == [q[0]] + q[1..];
    PrefixTail(p[0], p[1..], q[1..]);
    PrefixTail(p[0], q[1..], p[1..]);
  }

  lemma {:induction false} SetElsewhere(j: Json, p: Path, v: Json, q: Path)
    requires Apart(p, q)
    ensures Lookup(JsonSet(j, p, v), q) == Lookup(j, q)
    ensures HasParents(JsonSet(j, p, v), q) <==> HasParents(j, q)
    decreases |p|
  {
    if j.JObj? && p[0] == q[0] {
      ApartTail(p, q);
      if |p| > 1 && p[0] in j.fields { SetElsewhere(j.fields[p[0]], p[1..], v, q[1..]); }
    }
  }

  lemma {:induction false} SetHere(j: Json, p: Path, v: Json, r: Path)
    requires p != []
    ensures Lookup(JsonSet(j, p, v), p + r) == if HasParents(j, p) then Lookup(v, r) else Lookup(j, p + r)
    decreases |p|
  {
    assert (p + r)[0] == p[0] && (p + r)[1..] == p[1..] + r;
    if |p| == 1 {
      assert p[1..] + r == r;
    } else if j.JObj? && p[0] in j.fields {
      SetHere(j.fields[p[0]], p[1..], v, r);
    }
  }

  lemma {:induction false} DelElsewhere(j: Json, p: Path, q: Path)
    requires Apart(p, q)
    ensures Lookup(JsonDel(j, p), q) == Lookup(j, q)
    decreases |p|
  {
    if j.JObj? && p[0] == q[0] {
      ApartTail(p, q);
      if |p| > 1 && p[0] in j.fields { DelElsewhere(j.fields[p[0]], p[1..], q[1..]); }
    }
  }

  lemma {:induction false} DelHere(j: Json, p: Path, r: Path)
    requires p != []
    ensures Lookup(JsonDel(j, p), p + r) == None
    decreases |p|
  {
    assert (p + r)[0] == p[0] && (p + r)[1..] == p[1..] + r;
    if |p| > 1 && j.JObj? && p[0] in j.fields { DelHere(j.fields[p[0]], p[1..], r); }
  }

  /** What is gone stays gone. */
  lemma {:induction false} DelKeepsGone(j: Json, p: Path, q: Path)
    requires Lookup(j, q) == None
    ensures Lookup(JsonDel(j, p), q) == None
    decreases |p|
  {
    if j.JObj? && p != [] && p[0] == q[0] && |p| > 1 && p[0] in j.fields { DelKeepsGone(j.fields[p[0]], p[1..], q[1..]); }
  }

  // ----- the whole update, in any order -----

  /** No set key touches the path. */
  ghost predicate NotSet(s: map<string, Val>, q: Path) {
    forall k :: k in s ==> Apart(Split(k, '.'), q)
  }

  ghost predicate NotUnset(unset: seq<string>, q: Path) {
    forall k :: k in unset ==> Apart(Split(k, '.'), q)
  }

  lemma {:induction false} SetsElsewhere(doc: Json, s: map<string, Val>, order: seq<string>, q: Path)
    requires forall k :: k in order ==> k in s && Apart(Split(k, '.'), q)
    requires SetsInOrder(doc, s, order).Some?
    ensures Lookup(SetsInOrder(doc, s, order).value, q) == Lookup(doc, q)
    ensures HasParents(SetsInOrder(doc, s, order).value, q) <==> HasParents(doc, q)
  {
    hide Split, Encode, Lookup, JsonSet, Reaches, HasParents, Apart;
    if order != [] {
      var front, k := order[..|order| - 1], order[|order| - 1];
      SetsElsewhere(doc, s, front, q);
      SetElsewhere(SetsInOrder(doc, s, front).value, Split(k, '.'), Encode(s[k]), q);
    }
  }

  /** The path of a dotted key that is apart from the other keys holds its value. */
  lemma {:induction false} SetsReadHere(doc: Json, s: map<string, Val>, order: seq<string>, k: string, r: Path)
    requires (forall l :: l in order ==> l in s) && k in order
    requires forall i, j :: 0 <= i < j < |order| ==> order[i] != order[j]
    requires forall l :: l in order && l != k ==> Apart(Split(l, '.'), Split(k, '.'))
    requires SetsInOrder(doc, s, order).Some?
    ensures Lookup(SetsInOrder(doc, s, order).value, Split(k, '.') + r) ==
      if HasParents(doc, Split(k, '.')) then Lookup(Encode(s[k]), r) else Lookup(doc, Split(k, '.') + r)
    decreases |order|
  {
    hide Split, Encode, Lookup, JsonSet, Reaches, HasParents, Apart;
    var front, l, p := order[..|order| - 1], order[|order| - 1], Split(k, '.');
    var before := SetsInOrder(doc, s, front).value;
    assert forall x :: x in front ==> x in order;
    if l == k {
      assert k !in front;
      SetsElsewhere(doc, s, front, p);
      forall x | x in front ensures Apart(Split(x, '.'), p + r) { ApartExtends(Split(x, '.'), p, r); }
      SetsElsewhere(doc, s, front, p + r);
      SetHere(before, p, Encode(s[k]), r);
    } else {
      assert k in front;
      SetsReadHere(doc, s, front, k, r);
      ApartExtends(Split(l, '.'), p, r);
      SetElsewhere(before, Split(l, '.'), Encode(s[l]), p + r);
    }
  }

  lemma ApartExtends(p: Path, q: Path, r: Path)
    requires Apart(p, q)
    ensures Apart(p, q + r)
  {
    assert (q + r)[..|q|] == q;
    if |p| <= |q| { assert (q + r)[..|p|] == q[..|p|]; }
  }

  lemma {:induction false} DelsElsewhere(j: Json, unset: seq<string>, q: Path)
    requires DelsInOrder(j, unset).Some? && forall k :: k in unset && IsDotted(k) ==> Apart(Split(k, '.'), q)
    ensures Lookup(DelsInOrder(j, unset).value, q) == Lookup(j, q)
  {
    hide Split, Lookup, JsonDel, Reaches, Apart;
    if unset != [] {
      var front, k := unset[..|unset| - 1], unset[|unset| - 1];
      DelsElsewhere(j, front, q);
      if IsDotted(k) { DelElsewhere(DelsInOrder(j, front).value, Split(k, '.'), q); }
    }
  }

  lemma {:induction false} DelsRemove(j: Json, unset: seq<string>, k: string, r: Path)
    requires DelsInOrder(j, unset).Some? && k in unset && IsDotted(k)
    ensures Lookup(DelsInOrder(j, unset).value, Split(k, '.') + r) == None
  {
    hide Split, Lookup, JsonDel, Reaches;
    var front, l := unset[..|unset| - 1], unset[|unset| - 1];
    var before := DelsInOrder(j, front).value;
    if l == k {
      DelHere(before, Split(k, '.'), r);
    } else {
      assert k in front;
      DelsRemove(j, front, k, r);
      if IsDotted(l) { DelKeepsGone(before, Split(l, '.'), Split(k, '.') + r); }
    }
  }

  /** The last stages: a path whose top-level key is not set directly, and which no unset touches. */
  lemma LaterStages(j: Json, flat: map<string, Json>, unset: seq<string>, q: Path)
    requires j.JObj? && q != [] && NotUnset(unset, q)
    requires DelsInOrder(JObj(j.fields + flat), unset).Some? && DelsInOrder(JObj(j.fields + flat), unset).value.JObj?
    ensures Lookup(JObj(DelsInOrder(JObj(j.fields + flat), unset).value.fields - KeySet(FlatKeys(unset))), q)
      == Lookup(JObj(j.fields + flat), q)
  {
    hide Split, DelsInOrder, FlatKeys, Apart;
    FlatKeysAre(unset);
    DelsElsewhere(JObj(j.fields + flat), unset, q);
    if q[0] in KeySet(FlatKeys(unset)) {
      SplitSingle(q[0], '.');
      TopIsPrefix(q);
      assert false;
    }
  }

  lemma TopIsPrefix(q: Path)
    requires q != []
    ensures !Apart([q[0]], q)
  {
    assert q[..1] == [q[0]];
  }

  /** A top-level set key holds the stored form of its value, at every path below it that no unset touches. */
  lemma TopKeyHolds(doc: Json, s: map<string, Val>, order: seq<string>, unset: seq<string>, k: string, r: Path)
    requires (forall l :: l in order ==> l in s) && doc.JObj? && Outcome(doc, s, order, unset).Some?
    requires k in s && !IsDotted(k) && NotUnset(unset, [k] + r)
    ensures Lookup(Outcome(doc, s, order, unset).value, [k] + r) == Lookup(Encode(s[k]), r)
  {
    hide SetsInOrder, DelsInOrder, FlatKeys, NotUnset, Encode;
    var j := SetsInOrder(doc, s, order).value;
    SetsGiveObjects(doc, s, order);
    LaterStages(j, FlatOf(s), unset, [k] + r);
    assert ([k] + r)[1..] == r;
  }

  /** A dotted set key apart from every other one: its path holds the value if and only if all its
      parents are objects, and is as it was otherwise. */
  lemma DottedKeyHolds(doc: Json, s: map<string, Val>, order: seq<string>, unset: seq<string>, k: string, r: Path)
    requires Lists(order, s) && (forall l :: l in order ==> l in s) && doc.JObj? && Outcome(doc, s, order, unset).Some?
    requires k in s && IsDotted(k) && NotUnset(unset, Split(k, '.') + r)
    requires forall l :: l in s && l != k ==> Apart(Split(l, '.'), Split(k, '.'))
    ensures Lookup(Outcome(doc, s, order, unset).value, Split(k, '.') + r) ==
      if HasParents(doc, Split(k, '.')) then Lookup(Encode(s[k]), r) else Lookup(doc, Split(k, '.') + r)
  {
    hide SetsInOrder, DelsInOrder, FlatKeys, NotUnset, Encode, Split, HasParents, Apart;
    var j, q := SetsInOrder(doc, s, order).value, Split(k, '.') + r;
    SetsGiveObjects(doc, s, order);
    ListedKeys(order, s);
    SetsReadHere(doc, s, order, k, r);
    LaterStages(j, FlatOf(s), unset, q);
    if q[0] in FlatOf(s) { TopNotSet(s, k); }
  }

  lemma TopNotSet(s: map<string, Val>, k: string)
    requires forall l :: l in s && l != k ==> Apart(Split(l, '.'), Split(k, '.'))
    requires IsDotted(k)
    ensures Split(k, '.')[0] !in FlatOf(s)
  {
    hide Split, Encode;
    var top := Split(k, '.')[0];
    if top in FlatOf(s) {
      SplitSingle(top, '.');
      TopIsPrefix(Split(k, '.'));
      assert false;
    }
  }

  /** What no set and no unset touches stays as it was. */
  lemma OthersKeep(doc: Json, s: map<string, Val>, order: seq<string>, unset: seq<string>, q: Path)
    requires (forall l :: l in order ==> l in s) && doc.JObj? && Outcome(doc, s, order, unset).Some?
    requires q != [] && NotSet(s, q) && NotUnset(unset, q)
    ensures Lookup(Outcome(doc, s, order, unset).value, q) == Lookup(doc, q)
  {
    hide SetsInOrder, DelsInOrder, FlatKeys, NotUnset, Encode, Split, Apart;
    var j := SetsInOrder(doc, s, order).value;
    SetsGiveObjects(doc, s, order);
    SetsElsewhere(doc, s, order, q);
    LaterStages(j, FlatOf(s), unset, q);
    if q[0] in FlatOf(s) {
      SplitSingle(q[0], '.');
      TopIsPrefix(q);
      assert false;
    }
  }

  /** What is unset is gone, and everything below it, set in the same call or not. */
  lemma UnsetIsGone(doc: Json, s: map<string, Val>, order: seq<string>, unset: seq<string>, k: string, r: Path)
    requires (forall l :: l in order ==> l in s) && Outcome(doc, s, order, unset).Some? && k in unset
    ensures Lookup(Outcome(doc, s, order, unset).value, Split(k, '.') + r) == None
  {
    hide SetsInOrder, DelsInOrder, FlatKeys, Encode, Split;
    var j := JObj(SetsInOrder(doc, s, order).value.fields + FlatOf(s));
    var p := Split(k, '.');
    FlatKeysAre(unset);
    assert (p + r)[0] == p[0];
    if IsDotted(k) {
      DelsRemove(j, unset, k, r);
    } else {
      SplitSingle(k, '.');
    }
  }

  // ----- what a reader finds -----

  /** A field that a matching `SetFields` sets reads back whole, a map key by key and a list
      element by element. */
  lemma ReaderFinds(st: Statement, f: Doc, s: map<string, Val>, order: seq<string>, unset: seq<string>, pg: Pg, row: Row, k: string)
    requires (forall l :: l in order ==> l in s) && Performs(st, f, s, order, unset, pg, row)
    requires row.doc.JObj? && Casts(pg, row, f) && Matches(pg, row, f) && Execute(pg, st, row).Some?
    requires k in s && !IsDotted(k) && Encodable(s[k]) && NotUnset(unset, [k])
    ensures var doc := Execute(pg, st, row).value.doc;
      && Lookup(doc, [k]).Some? && Read(Lookup(doc, [k]).value) == Plain(s[k])
      && (s[k].VMap? ==> forall x :: Lookup(doc, [k, x]) == if x in s[k].f.fields then Some(Encode(s[k].f.fields[x])) else None)
      && (s[k].VList? ==> Lookup(doc, [k]).value.JArr? && |Lookup(doc, [k]).value.elems| == |s[k].elems|)
      && (s[k].VList? ==> forall i :: 0 <= i < |s[k].elems| ==> Lookup(doc, [k]).value.elems[i] == Encode(s[k].elems[i]))
  {
    hide Outcome, Casts, Matches, Execute, Read, Plain, NotUnset, Encodable;
    var doc := Execute(pg, st, row).value.doc;
    assert [k] + [] == [k];
    TopKeyHolds(row.doc, s, order, unset, k, []);
    ReadsBack(s[k]);
    forall x | s[k].VMap? ensures Lookup(doc, [k, x]) == if x in s[k].f.fields then Some(Encode(s[k].f.fields[x])) else None {
      BelowNotUnset(unset, k, x);
      assert [k] + [x] == [k, x];
      TopKeyHolds(row.doc, s, order, unset, k, [x]);
      assert [x][1..] == [];
    }
  }

  lemma BelowNotUnset(unset: seq<string>, k: string, x: string)
    requires NotUnset(unset, [k])
    ensures NotUnset(unset, [k] + [x])
  {
    hide Split, Apart;
    forall l | l in unset ensures Apart(Split(l, '.'), [k] + [x]) { ApartExtends(Split(l, '.'), [k], [x]); }
  }
}
