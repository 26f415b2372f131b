/** What a `$set`/`$unset` update means for a document, without an order, and how jsonb's path
    operations compose. */
module SetUnset {
  import opened Base
  import opened Sql
  import opened Filter

  type Path = seq<string>

  // ----- jsonb operations on object paths -----

  /** `jsonb_set(j, path, v, true)`: parents must exist; the last key is created. */
  function JsonSet(j: Json, path: Path, v: Json): Json
    decreases |path|
  {
    if !j.JObj? || path == [] then j
    else if |path| == 1 then JObj(j.fields[path[0] := v])
    else if path[0] in j.fields then JObj(j.fields[path[0] := JsonSet(j.fields[path[0]], path[1..], v)])
    else j
  }

  /** `j #- path`. */
  function JsonDel(j: Json, path: Path): Json
    decreases |path|
  {
    if !j.JObj? || path == [] then j
    else if |path| == 1 then JObj(j.fields - {path[0]})
    else if path[0] in j.fields then JObj(j.fields[path[0] := JsonDel(j.fields[path[0]], path[1..])])
    else j
  }

  // ----- the update, without an order -----

  function Tops(u: map<Path, Json>): set<string> {
    set p | p in u && |p| == 1 :: p[0]
  }

  function UnderKeys(ps: set<Path>, k: string): set<Path> {
    set p | p in ps && |p| >= 2 && p[0] == k :: p[1..]
  }

  lemma InUnder(ps: set<Path>, k: string, q: Path)
    ensures q in UnderKeys(ps, k) <==> q != [] && [k] + q in ps
  {
    if q in UnderKeys(ps, k) {
      var p :| p in ps && |p| >= 2 && p[0] == k && p[1..] == q;
      assert p == [k] + q;
    }
    if q != [] && [k] + q in ps {
      assert ([k] + q)[1..] == q;
    }
  }

  /** The part of the update below the key `k`. */
  function Under(u: map<Path, Json>, k: string): map<Path, Json> {
    map q | q in UnderKeys(u.Keys, k) :: (InUnder(u.Keys, k, q); u[[k] + q])
  }

  /** All the sets at once: a key set directly takes its value, any other key of the document
      is updated below, and a path whose parent is absent is ignored. */
  function SetMany(j: Json, u: map<Path, Json>): Json {
    if !j.JObj? then j
    else JObj(map k | k in j.fields.Keys + Tops(u) ::
                if [k] in u then u[[k]] else if k in j.fields then SetMany(j.fields[k], Under(u, k)) else JNull)
  }

  /** All the unsets at once. */
  function RemoveMany(j: Json, ps: set<Path>): Json {
    if !j.JObj? then j
    else JObj(map k | k in j.fields && [k] !in ps :: RemoveMany(j.fields[k], UnderKeys(ps, k)))
  }

  /** Dotted sets, then top-level sets override, then unsets. */
  function Stage(doc: Json, dotted: map<Path, Json>, flat: map<string, Json>, removed: set<Path>): Json
    requires doc.JObj?
  {
    RemoveMany(JObj(SetMany(doc, dotted).fields + flat), removed)
  }

  predicate IsPrefix(p: Path, q: Path) {
    |p| <= |q| && q[..|p|] == p
  }

  predicate Apart(p: Path, q: Path) {
    !IsPrefix(p, q) && !IsPrefix(q, p)
  }

  // ----- one more set -----

  lemma UnderExtended(u: map<Path, Json>, p: Path, v: Json, k: string)
    requires p != []
    ensures Under(u[p := v], k) == if |p| >= 2 && p[0] == k then Under(u, k)[p[1..] := v] else Under(u, k)
  {
    var w := u[p := v];
    var r := if |p| >= 2 && p[0] == k then Under(u, k)[p[1..] := v] else Under(u, k);
    forall q ensures (q in Under(w, k) <==> q in r) && (q in r ==> Under(w, k)[q] == r[q]) {
      InUnder(u.Keys, k, q);
      InUnder(w.Keys, k, q);
      if [k] + q == p {
        assert q == p[1..];
      }
      if |p| >= 2 && p[0] == k && q == p[1..] {
        assert [k] + q == p;
      }
    }
  }

  lemma InTops(u: map<Path, Json>, k: string)
    ensures k in Tops(u) <==> [k] in u
  {
    if k in Tops(u) {
      var q :| q in u && |q| == 1 && q[0] == k;
      assert q == [k];
    }
    if [k] in u {
      assert [k][0] == k && |[k]| == 1;
    }
  }

  ghost predicate ApartFromAll(p: Path, u: map<Path, Json>) {
    forall q :: q in u ==> Apart(p, q)
  }

  /** A further path, apart from all the others, is set by one `jsonb_set`. */
  lemma {:induction false} SetOneMore(j: Json, u: map<Path, Json>, p: Path, v: Json)
    requires p != [] && ApartFromAll(p, u)
    ensures SetMany(j, u[p := v]) == JsonSet(SetMany(j, u), p, v)
    decreases |p|
  {
    hide SetMany, Under, JsonSet;
    if !j.JObj? {
      NotObject(j, u, p, v);
      NotObject(j, u[p := v], p, v);
    } else {
      if |p| > 1 && p[0] in j.fields {
        ApartBelow(p, u);
        SetOneMore(j.fields[p[0]], Under(u, p[0]), p[1..], v);
      }
      SetManyKey(j, u, p[0]);
      SetManyKey(j, u[p := v], p[0]);
      SetKeeps(SetMany(j, u), p, v);
      var a, b := SetMany(j, u[p := v]).fields, JsonSet(SetMany(j, u), p, v).fields;
      forall x ensures (x in a <==> x in b) && (x in a ==> a[x] == b[x]) { SetOneKey(j, u, p, v, x); }
      assert a == b;
    }
  }

  lemma NotObject(j: Json, u: map<Path, Json>, p: Path, v: Json)
    requires !j.JObj?
    ensures SetMany(j, u) == j && JsonSet(j, p, v) == j
  {
  }

  lemma SetKeeps(r: Json, p: Path, v: Json)
    ensures JsonSet(r, p, v).JObj? <==> r.JObj?
  {
  }

  /** The two sides of `SetOneMore` agree at one key of the document. */
  lemma SetOneKey(j: Json, u: map<Path, Json>, p: Path, v: Json, x: string)
    requires j.JObj? && p != [] && ApartFromAll(p, u) && SetMany(j, u).JObj? && SetMany(j, u[p := v]).JObj? && JsonSet(SetMany(j, u), p, v).JObj?
    requires |p| > 1 && p[0] in j.fields ==>
      SetMany(j.fields[p[0]], Under(u, p[0])[p[1..] := v]) == JsonSet(SetMany(j.fields[p[0]], Under(u, p[0])), p[1..], v)
    ensures x in SetMany(j, u[p := v]).fields <==> x in JsonSet(SetMany(j, u), p, v).fields
    ensures x in SetMany(j, u[p := v]).fields ==> SetMany(j, u[p := v]).fields[x] == JsonSet(SetMany(j, u), p, v).fields[x]
  {
    hide SetMany, Under, Tops, JsonSet;
    var w, k, r := u[p := v], p[0], SetMany(j, u);
    assert IsPrefix([k], p);
    if |p| == 1 { SetTopUnfold(r, p, v); } else { SetDeepUnfold(r, p, v); }
    SetManyKey(j, u, k);
    SetManyKey(j, w, k);
    SetManyKey(j, u, x);
    SetManyKey(j, w, x);
    UnderExtended(u, p, v, x);
    assert [x] == p <==> |p| == 1 && x == k;
  }

  lemma SetManyKey(j: Json, u: map<Path, Json>, x: string)
    requires j.JObj?
    ensures SetMany(j, u).JObj?
    ensures x in SetMany(j, u).fields <==> x in j.fields || [x] in u
    ensures [x] in u ==> SetMany(j, u).fields[x] == u[[x]]
    ensures [x] !in u && x in j.fields ==> SetMany(j, u).fields[x] == SetMany(j.fields[x], Under(u, x))
  {
    InTops(u, x);
  }

  lemma SetDeepUnfold(r: Json, p: Path, v: Json)
    requires r.JObj? && |p| >= 2
    ensures JsonSet(r, p, v) == if p[0] in r.fields then JObj(r.fields[p[0] := JsonSet(r.fields[p[0]], p[1..], v)]) else r
  {
  }

  lemma ApartBelow(p: Path, u: map<Path, Json>)
    requires |p| >= 2 && ApartFromAll(p, u)
    ensures ApartFromAll(p[1..], Under(u, p[0]))
  {
    forall q | q in Under(u, p[0]) ensures Apart(p[1..], q) {
      InUnder(u.Keys, p[0], q);
      assert Apart(p, [p[0]] + q);
      PrefixTail(p[0], p[1..], q);
      assert p == [p[0]] + p[1..];
    }
  }

  lemma PrefixTail(k: string, p: Path, q: Path)
    ensures IsPrefix([k] + p, [k] + q) <==> IsPrefix(p, q)
    ensures IsPrefix([k] + q, [k] + p) <==> IsPrefix(q, p)
  {
    if |p| <= |q| {
      assert ([k] + q)[..|p| + 1] == [k] + q[..|p|];
      assert ([k] + p)[1..] == p && ([k] + q[..|p|])[1..] == q[..|p|];
    }
    if |q| <= |p| {
      assert ([k] + p)[..|q| + 1] == [k] + p[..|q|];
      assert ([k] + q)[1..] == q && ([k] + p[..|q|])[1..] == p[..|q|];
    }
  }

  // ----- one more unset -----

  lemma UnderSetExtended(ps: set<Path>, p: Path, k: string)
    requires p != []
    ensures |p| >= 2 && p[0] == k ==> UnderKeys(ps + {p}, k) == UnderKeys(ps, k) + {p[1..]}
    ensures !(|p| >= 2 && p[0] == k) ==> UnderKeys(ps + {p}, k) == UnderKeys(ps, k)
  {
    forall q ensures q in UnderKeys(ps + {p}, k) <==> q in UnderKeys(ps, k) || (|p| >= 2 && p[0] == k && q == p[1..]) {
      InUnder(ps, k, q);
      InUnder(ps + {p}, k, q);
      if [k] + q == p {
        assert q == p[1..];
      }
      if |p| >= 2 && p[0] == k && q == p[1..] {
        assert [k] + q == p;
      }
    }
  }

  lemma {:induction false} RemoveOneMore(j: Json, ps: set<Path>, p: Path)
    requires p != []
    ensures RemoveMany(j, ps + {p}) == JsonDel(RemoveMany(j, ps), p)
    decreases |p|
  {
    if j.JObj? {
      var k := p[0];
      forall x ensures (x != k || |p| == 1) ==> UnderKeys(ps + {p}, x) == UnderKeys(ps, x) { UnderSetExtended(ps, p, x); }
      if |p| == 1 {
        assert p == [k];
        assert forall x :: x != k ==> [x] != p;
      } else {
        UnderSetExtended(ps, p, k);
        if k in j.fields {
          RemoveOneMore(j.fields[k], UnderKeys(ps, k), p[1..]);
        }
      }
      var a, b := RemoveMany(j, ps + {p}), JsonDel(RemoveMany(j, ps), p);
      assert a.fields.Keys == b.fields.Keys;
      assert a.fields == b.fields;
    }
  }

  lemma {:induction false} NothingSet(j: Json)
    ensures SetMany(j, map[]) == j
  {
    if j.JObj? {
      assert Tops(map[]) == {};
      forall k | k in j.fields ensures SetMany(j.fields[k], Under(map[], k)) == j.fields[k] {
        assert Under(map[], k) == map[];
        NothingSet(j.fields[k]);
      }
      assert SetMany(j, map[]).fields == j.fields;
    }
  }

  lemma {:induction false} NothingRemoved(j: Json)
    ensures RemoveMany(j, {}) == j
  {
    if j.JObj? {
      forall k | k in j.fields ensures RemoveMany(j.fields[k], UnderKeys({}, k)) == j.fields[k] {
        assert UnderKeys({}, k) == {};
        NothingRemoved(j.fields[k]);
      }
      assert RemoveMany(j, {}).fields == j.fields;
    }
  }

  /** Top-level unsets, all removed in one `- text[]`. */
  lemma {:induction false} RemoveFlat(j: Json, ps: set<Path>, keys: seq<string>)
    requires j.JObj?
    ensures RemoveMany(j, ps + set k | k in keys :: [k]) == JObj(RemoveMany(j, ps).fields - KeySet(keys))
  {
    if keys == [] {
      assert (set k | k in keys :: [k]) == {} && KeySet(keys) == {};
      assert ps + {} == ps;
    } else {
      var last, rest := keys[|keys| - 1], keys[..|keys| - 1];
      RemoveFlat(j, ps, rest);
      var qs := set k | k in rest :: [k];
      RemoveOneMore(j, ps + qs, [last]);
      assert keys == rest + [last];
      assert ps + (set k | k in keys :: [k]) == ps + qs + {[last]};
      assert KeySet(keys) == KeySet(rest) + {last};
    }
  }

  function KeySet(keys: seq<string>): set<string> {
    set k | k in keys
  }

  // ----- inputs -----

  predicate IsDotted(k: string) {
    '.' in k
  }

  /** The stored values of the dotted set keys, by path; and of the top-level ones. */
  ghost function DottedOf(s: map<string, Val>): map<Path, Json>
    ensures forall k :: k in s && IsDotted(k) ==> Split(k, '.') in DottedOf(s) && DottedOf(s)[Split(k, '.')] == Encode(s[k])
    ensures forall p :: p in DottedOf(s) ==> exists k :: k in s && IsDotted(k) && p == Split(k, '.')
  {
    var ps := set k | k in s && IsDotted(k) :: Split(k, '.');
    var m := map p | p in ps :: (var k :| k in s && IsDotted(k) && Split(k, '.') == p; Encode(s[k]));
    assert forall k :: k in s && IsDotted(k) ==> Split(k, '.') in m && m[Split(k, '.')] == Encode(s[k]) by {
      forall k | k in s && IsDotted(k) ensures Split(k, '.') in m && m[Split(k, '.')] == Encode(s[k]) {
        forall l | l in s && IsDotted(l) && Split(l, '.') == Split(k, '.') ensures l == k { SplitInjective(l, k, '.'); }
      }
    }
    m
  }

  function FlatOf(s: map<string, Val>): map<string, Json> {
    map k | k in s && !IsDotted(k) :: Encode(s[k])
  }

  function RemovedBy(unset: seq<string>): set<Path> {
    set k | k in unset :: Split(k, '.')
  }

  /** What the update means for a document. */
  ghost function Update(doc: Json, s: map<string, Val>, unset: seq<string>): Json
    requires doc.JObj?
  {
    Stage(doc, DottedOf(s), FlatOf(s), RemovedBy(unset))
  }

  /** The paths written by dotted set keys are pairwise apart. */
  ghost predicate PrefixFree(s: map<string, Val>) {
    forall k, l :: k in s && l in s && k != l && IsDotted(k) && IsDotted(l) ==> Apart(Split(k, '.'), Split(l, '.'))
  }

  ghost predicate PlainKeys(s: map<string, Val>, unset: seq<string>) {
    (forall k :: k in s ==> PlainPath(k)) && (forall k :: k in unset ==> PlainPath(k))
  }

  // ----- arrays along a path -----

  /** No array lies along the path.  Where one does, `jsonb_set` and `#-` with a component that is
      not a number raise an error. */
  predicate Reaches(j: Json, p: Path)
    decreases |p|
  {
    p == [] || (!j.JArr? && (j.JObj? && p[0] in j.fields ==> Reaches(j.fields[p[0]], p[1..])))
  }

  predicate Above(p: Path, q: Path) {
    |p| < |q| && IsPrefix(p, q)
  }

  lemma AboveTail(p: Path, q: Path)
    requires p != [] && q != [] && p[0] == q[0]
    ensures Above(p, q) <==> Above(p[1..], q[1..])
  {
    assert p == [p[0]] + p[1..] && q == [q[0]] + q[1..];
    PrefixTail(p[0], p[1..], q[1..]);
  }

  /** A set changes nothing along a path that is not below it. */
  lemma {:induction false} ReachesAfterSet(j: Json, p: Path, v: Json, q: Path)
    requires p != [] && !Above(p, q)
    ensures Reaches(JsonSet(j, p, v), q) <==> Reaches(j, q)
    decreases |p|
  {
    if j.JObj? && q != [] && p[0] == q[0] {
      if |p| == 1 {
        assert q[..1] == p;
      } else if p[0] in j.fields {
        AboveTail(p, q);
        ReachesAfterSet(j.fields[p[0]], p[1..], v, q[1..]);
      }
    }
  }

  /** An array put at a path blocks every path below it. */
  lemma {:induction false} ArrayBlocks(j: Json, p: Path, q: Path)
    requires Settable(j, p) && Above(p, q)
    ensures !Reaches(JsonSet(j, p, JArr([])), q)
    decreases |p|
  {
    assert p == [p[0]] + p[1..] && q == [q[0]] + q[1..] && q[0] == p[0];
    if |p| > 1 {
      PrefixTail(p[0], p[1..], q[1..]);
      ArrayBlocks(j.fields[p[0]], p[1..], q[1..]);
    }
  }

  /** The last of two sets at one path wins. */
  lemma {:induction false} SetTwice(j: Json, p: Path, v: Json, w: Json)
    requires Settable(j, p)
    ensures JsonSet(JsonSet(j, p, v), p, w) == JsonSet(j, p, w)
    decreases |p|
  {
    if |p| == 1 {
      assert j.fields[p[0] := v][p[0] := w] == j.fields[p[0] := w];
    } else {
      var k := p[0];
      SetTwice(j.fields[k], p[1..], v, w);
      var x, y := JsonSet(j.fields[k], p[1..], v), JsonSet(j.fields[k], p[1..], w);
      assert j.fields[k := x][k := y] == j.fields[k := y];
    }
  }

  /** The smallest document in which a set at the path takes effect. */
  function Spine(p: Path): Json {
    if |p| <= 1 then JObj(map[]) else JObj(map[p[0] := Spine(p[1..])])
  }

  lemma {:induction false} SpineSettable(p: Path)
    requires p != []
    ensures Settable(Spine(p), p)
  {
    if |p| > 1 { SpineSettable(p[1..]); }
  }

  lemma {:induction false} SpineReaches(p: Path, q: Path)
    ensures Reaches(Spine(p), q)
    decreases |q|
  {
    if q != [] && |p| > 1 && q[0] == p[0] { SpineReaches(p[1..], q[1..]); }
  }

  // ----- paths that are not apart -----

  /** The parents of the path exist, so a set at it takes effect. */
  predicate Settable(j: Json, p: Path)
    decreases |p|
  {
    p != [] && j.JObj? && (|p| == 1 || (p[0] in j.fields && Settable(j.fields[p[0]], p[1..])))
  }

  lemma {:induction false} SetThenRead(j: Json, p: Path, v: Json)
    requires Settable(j, p)
    ensures Lookup(JsonSet(j, p, v), p) == Some(v)
    decreases |p|
  {
    if |p| > 1 {
      SetThenRead(j.fields[p[0]], p[1..], v);
    }
  }

  lemma SetTopUnfold(r: Json, p: Path, v: Json)
    requires r.JObj? && |p| == 1
    ensures JsonSet(r, p, v) == JObj(r.fields[p[0] := v])
  {
  }

  lemma {:induction false} SetBelowAfter(j: Json, p: Path, v: Json, below: Path, w: Json)
    requires Settable(j, p) && below != []
    ensures JsonSet(JsonSet(j, p, v), p + below, w) == JsonSet(j, p, JsonSet(v, below, w))
    decreases |p|
  {
    hide JsonSet;
    var q, k, x := p + below, p[0], JsonSet(v, below, w);
    assert q[0] == k && q[1..] == p[1..] + below && |q| >= 2;
    if |p| == 1 {
      assert q[1..] == below;
      SetTopUnfold(j, p, v);
      SetTopUnfold(j, p, x);
      SetDeepUnfold(JsonSet(j, p, v), q, w);
      assert j.fields[k := v][k := x] == j.fields[k := x];
    } else {
      var sub := j.fields[k];
      SetBelowAfter(sub, p[1..], v, below, w);
      SetDeepUnfold(j, p, v);
      SetDeepUnfold(j, p, x);
      SetDeepUnfold(JsonSet(j, p, v), q, w);
      assert j.fields[k := JsonSet(sub, p[1..], v)][k := JsonSet(sub, p[1..], x)] == j.fields[k := JsonSet(sub, p[1..], x)];
    }
  }

  lemma {:induction false} SetBelowBefore(j: Json, p: Path, v: Json, below: Path, w: Json)
    requires Settable(j, p) && below != []
    ensures JsonSet(JsonSet(j, p + below, w), p, v) == JsonSet(j, p, v)
    decreases |p|
  {
    hide JsonSet;
    var q, k := p + below, p[0];
    assert q[0] == k && q[1..] == p[1..] + below && |q| >= 2;
    SetDeepUnfold(j, q, w);
    var r := JsonSet(j, q, w);
    if |p| == 1 {
      SetTopUnfold(j, p, v);
      SetTopUnfold(r, p, v);
      assert r.fields[k := v] == j.fields[k := v];
    } else {
      SetBelowBefore(j.fields[k], p[1..], v, below, w);
      SetDeepUnfold(j, p, v);
      SetDeepUnfold(r, p, v);
      assert r.fields[k := JsonSet(j.fields[k], p[1..], v)] == j.fields[k := JsonSet(j.fields[k], p[1..], v)];
    }
  }

  /** Even where no array is in the way the order of two nested paths matters: the two orders
      give one document exactly when the value set at the upper path already absorbs the value
      set at the lower one. */
  lemma NestedOrderMatters(j: Json, p: Path, v: Json, below: Path, w: Json)
    requires Settable(j, p) && below != []
    ensures JsonSet(JsonSet(j, p, v), p + below, w) == JsonSet(JsonSet(j, p + below, w), p, v) <==> JsonSet(v, below, w) == v
  {
    SetBelowAfter(j, p, v, below, w);
    SetBelowBefore(j, p, v, below, w);
    SetThenRead(j, p, v);
    SetThenRead(j, p, JsonSet(v, below, w));
  }
}
