/** What the compiled update means, and exactly when Go's order of the set keys matters. */
module UpdateOrder {
  import opened Base
  import opened Ordering
  import opened Sql
  import opened Filter
  import opened SetUnset
  import opened UpdateSql

  // ----- what the outcome means -----

  /** A path that no set is above is as reachable after the sets as before. */
  lemma {:induction false} ReachesAfterSets(doc: Json, s: map<string, Val>, order: seq<string>, q: Path)
    requires (forall k :: k in order ==> k in s && !Above(Split(k, '.'), q)) && SetsInOrder(doc, s, order).Some?
    ensures Reaches(SetsInOrder(doc, s, order).value, q) <==> Reaches(doc, q)
  {
    hide Reaches, Split, Encode, JsonSet, Above;
    if order != [] {
      var front, k := order[..|order| - 1], order[|order| - 1];
      ReachesAfterSets(doc, s, front, q);
      ReachesAfterSet(SetsInOrder(doc, s, front).value, Split(k, '.'), Encode(s[k]), q);
    }
  }

  /** The values of the keys so far, by path. */
  ghost function Collect(s: map<string, Val>, order: seq<string>): map<Path, Json>
    requires forall k :: k in order ==> k in s
  {
    if order == [] then map[]
    else Collect(s, order[..|order| - 1])[Split(order[|order| - 1], '.') := Encode(s[order[|order| - 1]])]
  }

  lemma {:induction false} CollectKeys(s: map<string, Val>, order: seq<string>)
    requires forall k :: k in order ==> k in s
    ensures forall p :: p in Collect(s, order) <==> exists k :: k in order && p == Split(k, '.')
    ensures forall k :: k in order ==> Collect(s, order)[Split(k, '.')] == Encode(s[k])
  {
    hide Split, Encode;
    if order != [] {
      var front, last := order[..|order| - 1], order[|order| - 1];
      CollectKeys(s, front);
      assert order == front + [last];
      forall p ensures p in Collect(s, order) <==> exists k :: k in order && p == Split(k, '.') {
        if p in Collect(s, order) && p != Split(last, '.') { var k :| k in front && p == Split(k, '.'); assert k in order; }
        if k :| k in order && p == Split(k, '.') { assert k == last || k in front; }
      }
      forall k | k in order ensures Collect(s, order)[Split(k, '.')] == Encode(s[k]) {
        if Split(k, '.') == Split(last, '.') { SplitInjective(k, last, '.'); }
      }
    }
  }

  lemma CollectAll(s: map<string, Val>, order: seq<string>)
    requires Lists(order, s)
    ensures (forall k :: k in order ==> k in s) && Collect(s, order) == DottedOf(s)
  {
    hide Split, Encode, DottedOf;
    ListedKeys(order, s);
    CollectKeys(s, order);
    var a, b := Collect(s, order), DottedOf(s);
    forall p ensures (p in a <==> p in b) && (p in a ==> a[p] == b[p]) {
      if p in a { var k :| k in order && p == Split(k, '.'); }
      if p in b { var k :| k in s && IsDotted(k) && p == Split(k, '.'); assert k in order; }
    }
  }

  /** Keys pairwise apart: the sets fail exactly when an array lies along one of the paths of the
      original document, and otherwise are the simultaneous update. */
  lemma {:induction false} SetsTogether(doc: Json, s: map<string, Val>, order: seq<string>)
    requires forall k :: k in order ==> k in s && IsDotted(k)
    requires forall i, j :: 0 <= i < j < |order| ==> Apart(Split(order[i], '.'), Split(order[j], '.'))
    ensures SetsInOrder(doc, s, order) ==
      if forall k :: k in order ==> Reaches(doc, Split(k, '.')) then Some(SetMany(doc, Collect(s, order))) else None
  {
    hide Reaches, Split, Encode, SetMany, JsonSet, Apart, Collect;
    if order == [] {
      NothingSet(doc);
      assert Collect(s, []) == map[] by { NothingCollected(s); }
    } else {
      var front, last := order[..|order| - 1], order[|order| - 1];
      SetsTogether(doc, s, front);
      assert order == front + [last];
      LastApart(s, order);
      CollectLast(s, order);
      var p := Split(last, '.');
      if SetsInOrder(doc, s, front).Some? {
        ReachesAfterSets(doc, s, front, p);
        SetOneMore(doc, Collect(s, front), p, Encode(s[last]));
      }
    }
  }

  lemma NothingCollected(s: map<string, Val>)
    ensures Collect(s, []) == map[]
  {
  }

  lemma CollectLast(s: map<string, Val>, order: seq<string>)
    requires order != [] && forall k :: k in order ==> k in s
    ensures Collect(s, order) == Collect(s, order[..|order| - 1])[Split(order[|order| - 1], '.') := Encode(s[order[|order| - 1]])]
  {
  }

  lemma LastApart(s: map<string, Val>, order: seq<string>)
    requires order != [] && forall k :: k in order ==> k in s
    requires forall i, j :: 0 <= i < j < |order| ==> Apart(Split(order[i], '.'), Split(order[j], '.'))
    ensures var front, p := order[..|order| - 1], Split(order[|order| - 1], '.');
      ApartFromAll(p, Collect(s, front)) && forall k :: k in front ==> !Above(Split(k, '.'), p)
  {
    hide Split, Encode, Collect;
    var front, p := order[..|order| - 1], Split(order[|order| - 1], '.');
    CollectKeys(s, front);
    forall k | k in front ensures Apart(p, Split(k, '.')) {
      var i :| 0 <= i < |front| && front[i] == k;
      assert Apart(Split(order[i], '.'), Split(order[|order| - 1], '.'));
    }
  }

  predicate SetsReach(doc: Json, s: map<string, Val>) {
    forall k :: k in s && IsDotted(k) ==> Reaches(doc, Split(k, '.'))
  }

  lemma SetsMean(doc: Json, s: map<string, Val>, order: seq<string>)
    requires PrefixFree(s) && Lists(order, s)
    ensures (forall k :: k in order ==> k in s)
    ensures SetsInOrder(doc, s, order) == if SetsReach(doc, s) then Some(SetMany(doc, DottedOf(s))) else None
  {
    hide Split, Reaches, SetMany, DottedOf, Apart;
    ListedKeys(order, s);
    CollectAll(s, order);
    forall i, j | 0 <= i < j < |order| ensures Apart(Split(order[i], '.'), Split(order[j], '.')) {
      assert order[i] in order && order[j] in order;
    }
    SetsTogether(doc, s, order);
  }

  function DottedPaths(unset: seq<string>): set<Path> {
    set k | k in unset && IsDotted(k) :: Split(k, '.')
  }

  /** Every dotted unset finds no array along its path once the ones before it are gone. */
  predicate DelsReach(j: Json, unset: seq<string>) {
    unset == [] ||
    (DelsReach(j, unset[..|unset| - 1]) &&
     (IsDotted(unset[|unset| - 1]) ==> Reaches(RemoveMany(j, DottedPaths(unset[..|unset| - 1])), Split(unset[|unset| - 1], '.'))))
  }

  lemma {:induction false} DelsMean(j: Json, unset: seq<string>)
    ensures DelsInOrder(j, unset) == if DelsReach(j, unset) then Some(RemoveMany(j, DottedPaths(unset))) else None
  {
    hide Split, Reaches, RemoveMany, JsonDel;
    if unset == [] {
      assert DottedPaths(unset) == {};
      NothingRemoved(j);
    } else {
      var front, k := unset[..|unset| - 1], unset[|unset| - 1];
      DelsMean(j, front);
      assert unset == front + [k];
      if IsDotted(k) {
        assert DottedPaths(unset) == DottedPaths(front) + {Split(k, '.')};
        RemoveOneMore(j, DottedPaths(front), Split(k, '.'));
      } else {
        assert DottedPaths(unset) == DottedPaths(front);
      }
    }
  }

  lemma {:induction false} FlatKeysAre(unset: seq<string>)
    ensures forall k :: k in FlatKeys(unset) <==> k in unset && !IsDotted(k)
  {
    if unset != [] {
      FlatKeysAre(unset[..|unset| - 1]);
      assert unset == unset[..|unset| - 1] + [unset[|unset| - 1]];
    }
  }

  /** The update runs without error. */
  ghost predicate Clear(doc: Json, s: map<string, Val>, unset: seq<string>)
    requires doc.JObj?
  {
    SetsReach(doc, s) && DelsReach(JObj(SetMany(doc, DottedOf(s)).fields + FlatOf(s)), unset)
  }

  /** MAIN RESULT.  With prefix-free keys the outcome is the same for every iteration order: the
      order-free update, or an error exactly when an array is in the way of a path. */
  lemma OutcomeIsUpdate(doc: Json, s: map<string, Val>, order: seq<string>, unset: seq<string>)
    requires PrefixFree(s) && Lists(order, s) && doc.JObj?
    ensures forall k :: k in order ==> k in s
    ensures Outcome(doc, s, order, unset) == if Clear(doc, s, unset) then Some(Update(doc, s, unset)) else None
  {
    hide SetsInOrder, SetsReach, DelsReach, DelsInOrder, PrefixFree, Lists, RemoveMany, DottedOf;
    SetsMean(doc, s, order);
    if SetsReach(doc, s) {
      var j := JObj(SetMany(doc, DottedOf(s)).fields + FlatOf(s));
      DelsMean(j, unset);
      DelsGiveObjects(j, unset);
      RemoveFlat(j, DottedPaths(unset), FlatKeys(unset));
      AllRemoved(unset);
    }
  }

  lemma AllRemoved(unset: seq<string>)
    ensures RemovedBy(unset) == DottedPaths(unset) + set k | k in FlatKeys(unset) :: [k]
  {
    FlatKeysAre(unset);
    forall k | k in unset && !IsDotted(k) ensures Split(k, '.') == [k] { SplitSingle(k, '.'); }
    hide Split;
    forall p ensures p in RemovedBy(unset) <==> p in DottedPaths(unset) || p in set k | k in FlatKeys(unset) :: [k] {
      if p in RemovedBy(unset) { var k :| k in unset && p == Split(k, '.'); }
    }
  }

  // ----- exactly when the order matters -----

  lemma {:induction false} ErrorStays(doc: Json, s: map<string, Val>, order: seq<string>, i: nat)
    requires (forall k :: k in order ==> k in s) && i <= |order| && SetsInOrder(doc, s, order[..i]).None?
    ensures SetsInOrder(doc, s, order).None?
    decreases |order|
  {
    if i == |order| {
      assert order[..i] == order;
    } else {
      var front := order[..|order| - 1];
      assert front[..i] == order[..i];
      ErrorStays(doc, s, front, i);
    }
  }

  lemma OneSet(doc: Json, s: map<string, Val>, k: string)
    requires k in s
    ensures SetsInOrder(doc, s, [k]) == SetAt(doc, Split(k, '.'), Encode(s[k]))
  {
    assert [k][..0] == [];
    assert SetsInOrder(doc, s, []) == Some(doc);
  }

  /** Documents that agree after the first set agree after all of them. */
  lemma {:induction false} SameFirst(a: Json, b: Json, s: map<string, Val>, k: string, rest: seq<string>)
    requires k in s && (forall x :: x in rest ==> x in s) && SetsInOrder(a, s, [k]) == SetsInOrder(b, s, [k])
    ensures SetsInOrder(a, s, [k] + rest) == SetsInOrder(b, s, [k] + rest)
    decreases |rest|
  {
    if rest == [] {
      assert [k] + rest == [k];
    } else {
      var front := rest[..|rest| - 1];
      SameFirst(a, b, s, k, front);
      assert ([k] + rest)[..|rest|] == [k] + front;
    }
  }

  /** Longer keys first: no set puts anything in the way of a later one. */
  ghost predicate LongestFirst(order: seq<string>) {
    forall i, j :: 0 <= i < j < |order| ==> |Split(order[i], '.')| >= |Split(order[j], '.')|
  }

  lemma {:induction false} LongestFirstRuns(doc: Json, s: map<string, Val>, order: seq<string>)
    requires (forall k :: k in order ==> k in s && Reaches(doc, Split(k, '.'))) && LongestFirst(order)
    ensures SetsInOrder(doc, s, order).Some?
  {
    hide Split, Reaches, Encode;
    if order != [] {
      var front, k := order[..|order| - 1], order[|order| - 1];
      LongestFirstRuns(doc, s, front);
      ReachesAfterSets(doc, s, front, Split(k, '.'));
    }
  }

  lemma Longest(ks: set<string>) returns (m: string)
    requires ks != {}
    ensures m in ks && forall k :: k in ks ==> |Split(k, '.')| <= |Split(m, '.')|
  {
    hide Split;
    m :| m in ks;
    var rest := ks - {m};
    while rest != {}
      invariant rest <= ks && m in ks && forall k :: k in ks - rest ==> |Split(k, '.')| <= |Split(m, '.')|
      decreases |rest|
    {
      var k :| k in rest;
      if |Split(k, '.')| > |Split(m, '.')| { m := k; }
      rest := rest - {k};
    }
  }

  lemma {:induction false} SortedByLength(ks: set<string>) returns (order: seq<string>)
    ensures multiset(order) == multiset(ks) && LongestFirst(order)
    decreases |ks|
  {
    hide Split;
    if ks == {} {
      order := [];
    } else {
      var m := Longest(ks);
      var rest := SortedByLength(ks - {m});
      order := [m] + rest;
      assert multiset(ks) == multiset(ks - {m}) + multiset{m};
      forall i, j | 0 <= i < j < |order| ensures |Split(order[i], '.')| >= |Split(order[j], '.')| {
        assert order[j] in rest && order[j] in multiset(rest);
        if i > 0 { assert order[i] == rest[i - 1] && order[j] == rest[j - 1]; }
      }
    }
  }

  /** The keys in some order that starts with the given one. */
  ghost function StartingWith(s: map<string, Val>, k: string): seq<string>
    requires k in DottedKeys(s)
  {
    [k] + ListOf(DottedKeys(s) - {k})
  }

  lemma StartsList(s: map<string, Val>, k: string)
    requires k in DottedKeys(s)
    ensures Lists(StartingWith(s, k), s)
  {
    assert multiset(DottedKeys(s)) == multiset(DottedKeys(s) - {k}) + multiset{k};
  }

  /** Two nested keys: a document, and two orders with different outcomes on it. */
  lemma NestedKeysDisagree(s: map<string, Val>, k: string, l: string) returns (doc: Json, a: seq<string>, b: seq<string>)
    requires k in DottedKeys(s) && l in DottedKeys(s) && Above(Split(k, '.'), Split(l, '.'))
    ensures doc.JObj? && Lists(a, s) && Lists(b, s)
    ensures (forall x :: x in a ==> x in s) && (forall x :: x in b ==> x in s)
    ensures SetsInOrder(doc, s, a).Some? != SetsInOrder(doc, s, b).Some?
  {
    hide Split, Encode, Reaches, JsonSet, Lists, LongestFirst, Settable, SetsInOrder;
    var p, q := Split(k, '.'), Split(l, '.');
    var free := Spine(p);
    var blocked := JsonSet(free, p, JArr([]));
    SpineSettable(p);
    a, b := StartingWith(s, k), StartingWith(s, l);
    StartsList(s, k);
    StartsList(s, l);
    ListedKeys(a, s);
    ListedKeys(b, s);
    // the lower key first fails on the blocked document
    ArrayBlocks(free, p, q);
    OneSet(blocked, s, l);
    assert b[..1] == [l];
    ErrorStays(blocked, s, b, 1);
    if SetsInOrder(blocked, s, a).Some? {
      doc := blocked;
      assert blocked.JObj? by { SpineIsObject(p, JArr([])); }
    } else {
      // the upper key first fails on both documents alike; the longest first does not fail
      doc := free;
      SpineIsObject(p, JArr([]));
      SpineReaches(p, p);
      ReachesAfterSet(free, p, JArr([]), p);
      SetTwice(free, p, JArr([]), Encode(s[k]));
      OneSet(free, s, k);
      OneSet(blocked, s, k);
      SameFirst(free, blocked, s, k, a[1..]);
      assert a == [k] + a[1..];
      b := SortedByLength(DottedKeys(s));
      assert Lists(b, s) by { ByLengthLists(b, s); }
      ListedKeys(b, s);
      forall x | x in b ensures Reaches(free, Split(x, '.')) { SpineReaches(p, Split(x, '.')); }
      LongestFirstRuns(free, s, b);
    }
  }

  lemma ByLengthLists(b: seq<string>, s: map<string, Val>)
    requires multiset(b) == multiset(DottedKeys(s))
    ensures Lists(b, s)
  {
  }

  lemma SpineIsObject(p: Path, v: Json)
    requires p != []
    ensures Spine(p).JObj? && JsonSet(Spine(p), p, v).JObj?
  {
  }

  ghost predicate Agree(s: map<string, Val>, doc: Json, a: seq<string>, b: seq<string>) {
    (doc.JObj? && Lists(a, s) && Lists(b, s) && (forall x :: x in a ==> x in s) && (forall x :: x in b ==> x in s)) ==>
      SetsInOrder(doc, s, a) == SetsInOrder(doc, s, b)
  }

  /** Two orders agree on the dotted sets, and on the whole of a call without unsets. */
  ghost predicate AgreeOnSets(s: map<string, Val>, doc: Json, a: seq<string>, b: seq<string>) {
    (doc.JObj? && Lists(a, s) && Lists(b, s) && (forall x :: x in a ==> x in s) && (forall x :: x in b ==> x in s)) ==>
      Outcome(doc, s, a, []) == Outcome(doc, s, b, [])
  }

  lemma WithoutUnsets(doc: Json, s: map<string, Val>, order: seq<string>)
    requires doc.JObj? && forall x :: x in order ==> x in s
    ensures Outcome(doc, s, order, []).Some? <==> SetsInOrder(doc, s, order).Some?
  {
    hide SetsInOrder, FlatOf;
    SetsGiveObjects(doc, s, order);
  }

  /** MAIN RESULT.  The dotted sets have one outcome for all iteration orders, on every document,
      if and only if the dotted keys are prefix-free; and so does every call without unsets. */
  lemma OrderFreeExactly(s: map<string, Val>)
    ensures (forall doc: Json, a: seq<string>, b: seq<string> :: Agree(s, doc, a, b)) <==> PrefixFree(s)
    ensures (forall doc: Json, a: seq<string>, b: seq<string> :: AgreeOnSets(s, doc, a, b)) <==> PrefixFree(s)
  {
    hide SetsInOrder, Lists, SetsReach, SetMany, DottedOf, Split, Outcome;
    if PrefixFree(s) {
      forall doc: Json, a: seq<string>, b: seq<string> ensures Agree(s, doc, a, b) && AgreeOnSets(s, doc, a, b) {
        if doc.JObj? && Lists(a, s) && Lists(b, s) {
          SetsMean(doc, s, a);
          SetsMean(doc, s, b);
          OutcomeIsUpdate(doc, s, a, []);
          OutcomeIsUpdate(doc, s, b, []);
        }
      }
    } else {
      var k, l :| k in s && l in s && k != l && IsDotted(k) && IsDotted(l) && !Apart(Split(k, '.'), Split(l, '.'));
      var p, q := Split(k, '.'), Split(l, '.');
      assert p != q by { if p == q { SplitInjective(k, l, '.'); } }
      assert q[..|q|] == q && p[..|p|] == p;
      assert Above(p, q) || Above(q, p);
      var doc, a, b;
      if Above(p, q) { doc, a, b := NestedKeysDisagree(s, k, l); } else { doc, a, b := NestedKeysDisagree(s, l, k); }
      WithoutUnsets(doc, s, a);
      WithoutUnsets(doc, s, b);
      assert !Agree(s, doc, a, b) && !AgreeOnSets(s, doc, a, b);
    }
  }

  // ----- top-level fields -----

  /** A top-level key no dotted set or unset creates or removes. */
  lemma {:induction false} SetsKeepTop(doc: Json, s: map<string, Val>, order: seq<string>, x: string)
    requires doc.JObj? && (forall k :: k in order ==> k in s && IsDotted(k)) && SetsInOrder(doc, s, order).Some?
    ensures SetsInOrder(doc, s, order).value.JObj? && (x in SetsInOrder(doc, s, order).value.fields <==> x in doc.fields)
  {
    hide Split, Encode, Reaches;
    if order != [] {
      var k := order[|order| - 1];
      SetsKeepTop(doc, s, order[..|order| - 1], x);
      assert k in order;
      assert |Split(k, '.')| >= 2 by { SplitSingle(k, '.'); }
    }
  }

  lemma {:induction false} DelsKeepTop(j: Json, unset: seq<string>, x: string)
    requires j.JObj? && DelsInOrder(j, unset).Some?
    ensures DelsInOrder(j, unset).value.JObj? && (x in DelsInOrder(j, unset).value.fields <==> x in j.fields)
  {
    hide Split, Reaches;
    if unset != [] {
      var k := unset[|unset| - 1];
      DelsKeepTop(j, unset[..|unset| - 1], x);
      if IsDotted(k) {
        assert |Split(k, '.')| >= 2 by { SplitSingle(k, '.'); }
      }
    }
  }

  /** In every order, a top-level field is there after an update exactly when it was there before
      or is set, and is not unset. */
  lemma TopAfter(doc: Json, s: map<string, Val>, order: seq<string>, unset: seq<string>, x: string)
    requires doc.JObj? && !IsDotted(x) && (forall k :: k in order ==> k in s && IsDotted(k)) && Outcome(doc, s, order, unset).Some?
    ensures Outcome(doc, s, order, unset).value.JObj?
    ensures x in Outcome(doc, s, order, unset).value.fields <==> (x in doc.fields || x in s) && x !in unset
  {
    hide SetsInOrder, DelsInOrder, FlatKeys;
    SetsKeepTop(doc, s, order, x);
    var j := JObj(SetsInOrder(doc, s, order).value.fields + FlatOf(s));
    DelsKeepTop(j, unset, x);
    FlatKeysAre(unset);
  }
}
