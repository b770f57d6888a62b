/**
 * The merge of a persisted column-key order into the live columns of the
 * business list (src/app/dashboard/businesses/page.tsx, used on mount, when
 * the columns first arrive, and when the table emits a new order): the
 * stored keys that name a live column come first, in stored order, then the
 * live columns not yet placed, in their own order; stored keys that name no
 * live column are dropped.
 */
module ColumnOrder {
  import opened Wrappers

  /** A live column of the business list: its key and its resolved caption. */
  datatype ColumnDef = ColumnDef(key: string, caption: string)

  function ColumnKeys(cols: seq<ColumnDef>): (r: seq<string>)
    ensures |r| == |cols|
    ensures forall i :: 0 <= i < |cols| ==> r[i] == cols[i].key
  {
    seq(|cols|, i requires 0 <= i < |cols| => cols[i].key)
  }

  predicate Distinct<T(==)>(s: seq<T>) {
    forall i, j :: 0 <= i < j < |s| ==> s[i] != s[j]
  }

  predicate DistinctKeys(cols: seq<ColumnDef>) {
    Distinct(ColumnKeys(cols))
  }

  /** The column a key names in a Map built from the columns' entries:
      when a key repeats, the last column given for it wins. */
  function LookupLast(cols: seq<ColumnDef>, k: string): (r: Option<ColumnDef>)
    ensures r.Some? ==> r.value in cols && r.value.key == k
    ensures r.None? <==> k !in ColumnKeys(cols)
    decreases |cols|
  {
    if cols == [] then None
    else
      var n := |cols| - 1;
      assert ColumnKeys(cols) == ColumnKeys(cols[..n]) + [cols[n].key];
      if cols[n].key == k then Some(cols[n]) else LookupLast(cols[..n], k)
  }

  /** The column a stored key names, as a zero- or one-element list. */
  function Pick(live: seq<ColumnDef>, k: string): seq<ColumnDef> {
    match LookupLast(live, k)
    case Some(c) => [c]
    case None => []
  }

  /** The first pass: for each stored key in turn, the live column it names. */
  function PickStored(stored: seq<string>, live: seq<ColumnDef>): (r: seq<ColumnDef>)
    ensures |r| <= |stored|
    ensures forall c :: c in r ==> c in live && c.key in stored
  {
    if stored == [] then [] else Pick(live, stored[0]) + PickStored(stored[1..], live)
  }

  /** The second pass: appends each column of `rest` whose key is not yet
      among the placed columns. */
  function AppendMissing(acc: seq<ColumnDef>, rest: seq<ColumnDef>): (r: seq<ColumnDef>)
    ensures acc <= r
    ensures forall c :: c in r ==> c in acc || c in rest
    decreases |rest|
  {
    if rest == [] then acc
    else
      var acc' := if rest[0].key in ColumnKeys(acc) then acc else acc + [rest[0]];
      AppendMissing(acc', rest[1..])
  }

  /** Every column of `rest` has its key placed once the pass is over. */
  lemma {:induction false} AppendMissingCovers(acc: seq<ColumnDef>, rest: seq<ColumnDef>)
    ensures forall c :: c in rest ==> c.key in ColumnKeys(AppendMissing(acc, rest))
    decreases |rest|
  {
    if rest != [] {
      var acc' := if rest[0].key in ColumnKeys(acc) then acc else acc + [rest[0]];
      AppendMissingCovers(acc', rest[1..]);
      var r := AppendMissing(acc', rest[1..]);
      assert ColumnKeys(acc') <= ColumnKeys(r) by {
        assert acc' <= r;
        assert ColumnKeys(r)[..|acc'|] == ColumnKeys(acc');
      }
      assert rest[0].key in ColumnKeys(acc') by {
        if rest[0].key !in ColumnKeys(acc) {
          assert ColumnKeys(acc')[|acc|] == rest[0].key;
        }
      }
      forall c | c in rest ensures c.key in ColumnKeys(r) {
        if c != rest[0] {
          assert c in rest[1..];
        }
      }
    }
  }

  /** The merged order: every column it lists is live, and every live key
      is listed. */
  function MergeOrder(stored: seq<string>, live: seq<ColumnDef>): (r: seq<ColumnDef>)
    ensures forall c :: c in r ==> c in live
    ensures forall c :: c in live ==> c.key in ColumnKeys(r)
  {
    AppendMissingCovers(PickStored(stored, live), live);
    AppendMissing(PickStored(stored, live), live)
  }

  /** The live columns whose key is not in `ks`, in order. */
  function FilterOut(rest: seq<ColumnDef>, ks: seq<string>): (r: seq<ColumnDef>)
  {
    if rest == [] then []
    else (if rest[0].key in ks then [] else [rest[0]]) + FilterOut(rest[1..], ks)
  }

  /** FilterOut keeps exactly the columns whose key is not in `ks`: all of
      them when none is, none when all are. */
  lemma {:induction false} FilterOutMembers(rest: seq<ColumnDef>, ks: seq<string>)
    ensures forall c :: c in FilterOut(rest, ks) <==> c in rest && c.key !in ks
    ensures (forall c :: c in rest ==> c.key !in ks) ==> FilterOut(rest, ks) == rest
    ensures (forall c :: c in rest ==> c.key in ks) ==> FilterOut(rest, ks) == []
    decreases |rest|
  {
    if rest != [] {
      FilterOutMembers(rest[1..], ks);
      assert rest == [rest[0]] + rest[1..];
    }
  }

  /** The stored keys that are among `ks`, in stored order. */
  function KeepPresent(stored: seq<string>, ks: seq<string>): (r: seq<string>)
    ensures forall k :: k in r <==> k in stored && k in ks
  {
    if stored == [] then []
    else (if stored[0] in ks then [stored[0]] else []) + KeepPresent(stored[1..], ks)
  }

  /** The page's Map from key to live column, built entry by entry, a later
      column replacing an earlier one with the same key. */
  method KeyIndex(live: seq<ColumnDef>) returns (byKey: map<string, ColumnDef>)
    ensures forall k :: LookupLast(live, k) == if k in byKey then Some(byKey[k]) else None
  {
    byKey := map[];
    var i := 0;
    while i < |live|
      invariant 0 <= i <= |live|
      invariant forall k :: LookupLast(live[..i], k) == if k in byKey then Some(byKey[k]) else None
    {
      var c := live[i];
      var next := byKey[c.key := c];
      forall k ensures LookupLast(live[..i + 1], k) == if k in next then Some(next[k]) else None {
        LookupSnoc(live, i, k);
      }
      byKey := next;
      i := i + 1;
    }
    assert live[..|live|] == live;
  }

  /**
   * The merge as the page writes it: a Map from key to column, a pass over
   * the stored keys pushing the column each names, then a pass over the
   * live columns pushing those whose key was not placed yet.
   */
  method MergeStoredOrder(stored: seq<string>, live: seq<ColumnDef>) returns (reordered: seq<ColumnDef>)
    ensures reordered == MergeOrder(stored, live)
  {
    var byKey := KeyIndex(live);
    reordered := PlaceStored(stored, live, byKey);
    reordered := PlaceMissing(reordered, live);
  }

  /** The first pass: the column each stored key names, via the Map. */
  method PlaceStored(stored: seq<string>, live: seq<ColumnDef>, byKey: map<string, ColumnDef>)
    returns (placed: seq<ColumnDef>)
    requires forall k :: LookupLast(live, k) == if k in byKey then Some(byKey[k]) else None
    ensures placed == PickStored(stored, live)
  {
    placed := [];
    var j := 0;
    while j < |stored|
      invariant 0 <= j <= |stored|
      invariant placed == PickStored(stored[..j], live)
    {
      var k := stored[j];
      assert Pick(live, k) == if k in byKey then [byKey[k]] else [];
      if k in byKey {
        placed := placed + [byKey[k]];
      }
      PickStoredSnoc(stored, j, live);
      j := j + 1;
    }
    assert stored[..|stored|] == stored;
  }

  /** The second pass: appends each live column whose key is not placed. */
  method PlaceMissing(placed: seq<ColumnDef>, live: seq<ColumnDef>) returns (r: seq<ColumnDef>)
    ensures r == AppendMissing(placed, live)
  {
    r := placed;
    var n := 0;
    while n < |live|
      invariant 0 <= n <= |live|
      invariant AppendMissing(r, live[n..]) == AppendMissing(placed, live)
    {
      AppendMissingStep(r, live, n);
      var c := live[n];
      if c.key !in ColumnKeys(r) {
        r := r + [c];
      }
      n := n + 1;
    }
  }

  // ---------------------------------------------------------------------
  // Helpers

  lemma {:induction false} PickStoredAppend(a: seq<string>, b: seq<string>, live: seq<ColumnDef>)
    ensures PickStored(a + b, live) == PickStored(a, live) + PickStored(b, live)
    decreases |a|
  {
    if a != [] {
      assert (a + b)[1..] == a[1..] + b;
      PickStoredAppend(a[1..], b, live);
    } else {
      assert a + b == b;
    }
  }

  lemma LookupSnoc(live: seq<ColumnDef>, i: nat, k: string)
    requires i < |live|
    ensures LookupLast(live[..i + 1], k) == if live[i].key == k then Some(live[i]) else LookupLast(live[..i], k)
  {
    assert live[..i + 1][..i] == live[..i];
  }

  lemma AppendMissingStep(acc: seq<ColumnDef>, live: seq<ColumnDef>, n: nat)
    requires n < |live|
    ensures AppendMissing(acc, live[n..]) ==
      AppendMissing(if live[n].key in ColumnKeys(acc) then acc else acc + [live[n]], live[n + 1..])
  {
    assert live[n..][1..] == live[n + 1..];
  }

  lemma PickStoredSnoc(stored: seq<string>, j: nat, live: seq<ColumnDef>)
    requires j < |stored|
    ensures PickStored(stored[..j + 1], live) == PickStored(stored[..j], live) + Pick(live, stored[j])
  {
    assert stored[..j + 1] == stored[..j] + [stored[j]];
    PickStoredAppend(stored[..j], [stored[j]], live);
  }

  lemma ColumnKeysAppend(a: seq<ColumnDef>, b: seq<ColumnDef>)
    ensures ColumnKeys(a + b) == ColumnKeys(a) + ColumnKeys(b)
  {
  }

  /** With distinct keys, the lookup of a live column's key finds it. */
  lemma {:induction false} LookupDistinct(cols: seq<ColumnDef>, c: ColumnDef)
    requires DistinctKeys(cols) && c in cols
    ensures LookupLast(cols, c.key) == Some(c)
    decreases |cols|
  {
    var n := |cols| - 1;
    var i :| 0 <= i < |cols| && cols[i] == c;
    if cols[n].key != c.key {
      assert i < n;
      assert c in cols[..n];
      assert ColumnKeys(cols[..n]) == ColumnKeys(cols)[..n];
      LookupDistinct(cols[..n], c);
    } else {
      assert ColumnKeys(cols)[i] == ColumnKeys(cols)[n];
    }
  }

  /** Two lists holding the same columns, drawn from distinct keys, look up
      every key alike. */
  lemma LookupSameColumns(m: seq<ColumnDef>, live: seq<ColumnDef>, k: string)
    requires DistinctKeys(live)
    requires forall c :: c in m <==> c in live
    ensures LookupLast(m, k) == LookupLast(live, k)
  {
    match LookupLast(m, k)
    case Some(c) =>
      LookupDistinct(live, c);
    case None =>
  }

  lemma {:induction false} PickStoredCongruent(stored: seq<string>, a: seq<ColumnDef>, b: seq<ColumnDef>)
    requires forall k :: LookupLast(a, k) == LookupLast(b, k)
    ensures PickStored(stored, a) == PickStored(stored, b)
    decreases |stored|
  {
    if stored != [] {
      PickStoredCongruent(stored[1..], a, b);
    }
  }

  /** A stored key naming a live column places that column. */
  lemma {:induction false} PickedContains(stored: seq<string>, live: seq<ColumnDef>, c: ColumnDef)
    requires c.key in stored && LookupLast(live, c.key) == Some(c)
    ensures c in PickStored(stored, live)
    decreases |stored|
  {
    if stored[0] != c.key {
      PickedContains(stored[1..], live, c);
    }
  }

  lemma {:induction false} PickedKeys(stored: seq<string>, live: seq<ColumnDef>)
    ensures ColumnKeys(PickStored(stored, live)) == KeepPresent(stored, ColumnKeys(live))
    decreases |stored|
  {
    if stored != [] {
      var k := stored[0];
      var head := Pick(live, k);
      PickedKeys(stored[1..], live);
      ColumnKeysAppend(head, PickStored(stored[1..], live));
      assert ColumnKeys(head) == if k in ColumnKeys(live) then [k] else [] by {
        if LookupLast(live, k).Some? {
          assert head == [LookupLast(live, k).value];
        }
      }
      assert PickStored(stored, live) == head + PickStored(stored[1..], live);
      assert KeepPresent(stored, ColumnKeys(live)) ==
        (if k in ColumnKeys(live) then [k] else []) + KeepPresent(stored[1..], ColumnKeys(live));
    }
  }

  lemma {:induction false} AppendMissingAppend(acc: seq<ColumnDef>, a: seq<ColumnDef>, b: seq<ColumnDef>)
    ensures AppendMissing(acc, a + b) == AppendMissing(AppendMissing(acc, a), b)
    decreases |a|
  {
    if a == [] {
      assert a + b == b;
    } else {
      assert (a + b)[0] == a[0];
      assert (a + b)[1..] == a[1..] + b;
      var acc' := if a[0].key in ColumnKeys(acc) then acc else acc + [a[0]];
      AppendMissingAppend(acc', a[1..], b);
    }
  }

  lemma {:induction false} AppendMissingTaken(acc: seq<ColumnDef>, rest: seq<ColumnDef>)
    requires forall c :: c in rest ==> c.key in ColumnKeys(acc)
    ensures AppendMissing(acc, rest) == acc
    decreases |rest|
  {
    if rest != [] {
      assert rest[0] in rest;
      AppendMissingTaken(acc, rest[1..]);
    }
  }

  lemma {:induction false} FilterOutCongruent(rest: seq<ColumnDef>, ks1: seq<string>, ks2: seq<string>)
    requires forall c :: c in rest ==> (c.key in ks1 <==> c.key in ks2)
    ensures FilterOut(rest, ks1) == FilterOut(rest, ks2)
    decreases |rest|
  {
    if rest != [] {
      assert rest[0] in rest;
      FilterOutCongruent(rest[1..], ks1, ks2);
    }
  }

  /** The tail of a list with distinct keys has distinct keys, none equal
      to the head's. */
  lemma DistinctKeysTail(rest: seq<ColumnDef>)
    requires rest != [] && DistinctKeys(rest)
    ensures DistinctKeys(rest[1..])
    ensures forall c :: c in rest[1..] ==> c.key != rest[0].key
  {
    var tail := rest[1..];
    assert ColumnKeys(tail) == ColumnKeys(rest)[1..];
    forall c | c in tail ensures c.key != rest[0].key {
      var i :| 0 <= i < |tail| && tail[i] == c;
      assert ColumnKeys(rest)[0] != ColumnKeys(rest)[i + 1];
    }
  }

  /** Over distinct keys, the second pass appends exactly the columns whose
      key is not placed yet. */
  lemma {:induction false} AppendMissingFilters(acc: seq<ColumnDef>, rest: seq<ColumnDef>)
    requires DistinctKeys(rest)
    ensures AppendMissing(acc, rest) == acc + FilterOut(rest, ColumnKeys(acc))
    decreases |rest|
  {
    if rest != [] {
      var r0 := rest[0];
      var tail := rest[1..];
      DistinctKeysTail(rest);
      if r0.key in ColumnKeys(acc) {
        AppendMissingFilters(acc, tail);
      } else {
        var acc' := acc + [r0];
        assert AppendMissing(acc, rest) == AppendMissing(acc', tail);
        AppendMissingFilters(acc', tail);
        ColumnKeysAppend(acc, [r0]);
        assert ColumnKeys(acc') == ColumnKeys(acc) + [r0.key];
        FilterOutCongruent(tail, ColumnKeys(acc'), ColumnKeys(acc));
        assert FilterOut(rest, ColumnKeys(acc)) == [r0] + FilterOut(tail, ColumnKeys(acc));
        assert acc' + FilterOut(tail, ColumnKeys(acc)) == acc + ([r0] + FilterOut(tail, ColumnKeys(acc)));
      }
    }
  }

  lemma {:induction false} KeepPresentDistinct(stored: seq<string>, ks: seq<string>)
    requires Distinct(stored)
    ensures Distinct(KeepPresent(stored, ks))
    decreases |stored|
  {
    if stored != [] {
      assert Distinct(stored[1..]);
      KeepPresentDistinct(stored[1..], ks);
      assert stored[0] !in stored[1..];
    }
  }

  lemma {:induction false} FilterOutDistinct(rest: seq<ColumnDef>, ks: seq<string>)
    requires DistinctKeys(rest)
    ensures DistinctKeys(FilterOut(rest, ks))
    decreases |rest|
  {
    if rest != [] {
      var tail := rest[1..];
      DistinctKeysTail(rest);
      FilterOutDistinct(tail, ks);
      FilterOutMembers(tail, ks);
      var head := if rest[0].key in ks then [] else [rest[0]];
      var ft := FilterOut(tail, ks);
      ColumnKeysAppend(head, ft);
      forall k | k in ColumnKeys(head) ensures k !in ColumnKeys(ft) {
        KeyWitness(ft, k);
      }
      DistinctConcat(ColumnKeys(head), ColumnKeys(ft));
    }
  }

  /** A key listed by ColumnKeys belongs to one of the columns. */
  lemma KeyWitness(cols: seq<ColumnDef>, k: string)
    ensures k in ColumnKeys(cols) <==> exists c :: c in cols && c.key == k
  {
    if k in ColumnKeys(cols) {
      var i :| 0 <= i < |cols| && ColumnKeys(cols)[i] == k;
      assert cols[i] in cols;
    }
  }

  lemma DistinctConcat<T>(a: seq<T>, b: seq<T>)
    requires Distinct(a) && Distinct(b)
    requires forall x :: x in a ==> x !in b
    ensures Distinct(a + b)
  {
    forall i, j | 0 <= i < j < |a + b| ensures (a + b)[i] != (a + b)[j] {
      if i < |a| && j >= |a| {
        assert (a + b)[i] in a;
        assert (a + b)[j] in b;
      }
    }
  }

  /** A duplicate-free list holds each element at most once. */
  lemma {:induction false} DistinctCount<T>(s: seq<T>, x: T)
    requires Distinct(s)
    ensures multiset(s)[x] == if x in s then 1 else 0
    decreases |s|
  {
    if s != [] {
      assert s == [s[0]] + s[1..];
      assert Distinct(s[1..]);
      DistinctCount(s[1..], x);
      assert s[0] !in s[1..];
    }
  }

  /** Two duplicate-free lists with the same elements are permutations of
      each other. */
  lemma DistinctSameElements<T>(a: seq<T>, b: seq<T>)
    requires Distinct(a) && Distinct(b)
    requires forall x :: x in a <==> x in b
    ensures multiset(a) == multiset(b)
  {
    forall x ensures multiset(a)[x] == multiset(b)[x] {
      DistinctCount(a, x);
      DistinctCount(b, x);
    }
  }

  // ---------------------------------------------------------------------
  // Properties of the merge

  /**
   * Over distinct live keys the merge is the picked stored columns followed
   * by the live columns whose key was not stored, and the picked columns
   * carry exactly the stored keys that name a live column, in stored order.
   */
  lemma MergeSplits(stored: seq<string>, live: seq<ColumnDef>)
    requires DistinctKeys(live)
    ensures MergeOrder(stored, live) == PickStored(stored, live) + FilterOut(live, stored)
    ensures ColumnKeys(PickStored(stored, live)) == KeepPresent(stored, ColumnKeys(live))
  {
    var p := PickStored(stored, live);
    AppendMissingFilters(p, live);
    PickedKeys(stored, live);
    forall c | c in live ensures c.key in ColumnKeys(p) <==> c.key in stored {
      var i :| 0 <= i < |live| && live[i] == c;
      assert ColumnKeys(live)[i] == c.key;
    }
    FilterOutCongruent(live, ColumnKeys(p), stored);
  }

  /** Every live column appears in the merge, given distinct live keys. */
  lemma MergeKeepsLive(stored: seq<string>, live: seq<ColumnDef>)
    requires DistinctKeys(live)
    ensures forall c :: c in MergeOrder(stored, live) <==> c in live
  {
    var p := PickStored(stored, live);
    var u := FilterOut(live, stored);
    MergeSplits(stored, live);
    assert MergeOrder(stored, live) == p + u;
    FilterOutMembers(live, stored);
    forall c | c in live ensures c in p + u {
      if c.key in stored {
        LookupDistinct(live, c);
        PickedContains(stored, live, c);
      }
    }
  }

  /** With distinct stored keys and distinct live keys the merge is a
      permutation of the live columns, and its keys stay distinct. */
  lemma MergePermutes(stored: seq<string>, live: seq<ColumnDef>)
    requires Distinct(stored) && DistinctKeys(live)
    ensures DistinctKeys(MergeOrder(stored, live))
    ensures multiset(MergeOrder(stored, live)) == multiset(live)
    ensures |MergeOrder(stored, live)| == |live|
  {
    var p := PickStored(stored, live);
    var u := FilterOut(live, stored);
    var m := MergeOrder(stored, live);
    MergeSplits(stored, live);
    KeepPresentDistinct(stored, ColumnKeys(live));
    FilterOutDistinct(live, stored);
    FilterOutMembers(live, stored);
    forall k | k in ColumnKeys(p) ensures k !in ColumnKeys(u) {
      KeyWitness(u, k);
    }
    DistinctConcat(ColumnKeys(p), ColumnKeys(u));
    ColumnKeysAppend(p, u);
    assert DistinctKeys(m);
    MergeKeepsLive(stored, live);
    KeysDistinctColumnsDistinct(m);
    KeysDistinctColumnsDistinct(live);
    DistinctSameElements(m, live);
    assert |m| == |multiset(m)| == |multiset(live)| == |live|;
  }

  lemma KeysDistinctColumnsDistinct(cols: seq<ColumnDef>)
    requires DistinctKeys(cols)
    ensures Distinct(cols)
  {
    forall i, j | 0 <= i < j < |cols| ensures cols[i] != cols[j] {
      assert ColumnKeys(cols)[i] != ColumnKeys(cols)[j];
    }
  }

  /** Merging the same stored order a second time changes nothing. */
  lemma MergeIdempotent(stored: seq<string>, live: seq<ColumnDef>)
    requires DistinctKeys(live)
    ensures MergeOrder(stored, MergeOrder(stored, live)) == MergeOrder(stored, live)
  {
    var p := PickStored(stored, live);
    var u := FilterOut(live, stored);
    var m := MergeOrder(stored, live);
    MergeSplits(stored, live);
    MergeKeepsLive(stored, live);
    forall k ensures LookupLast(m, k) == LookupLast(live, k) {
      LookupSameColumns(m, live, k);
    }
    PickStoredCongruent(stored, m, live);
    assert MergeOrder(stored, m) == AppendMissing(p, p + u);
    AppendMissingAppend(p, p, u);
    forall c | c in p ensures c.key in ColumnKeys(p) {
      KeyWitness(p, c.key);
    }
    AppendMissingTaken(p, p);
    FilterOutDistinct(live, stored);
    AppendMissingFilters(p, u);
    FilterOutMembers(live, stored);
    forall c | c in u ensures c.key !in ColumnKeys(p) {
    }
    FilterOutMembers(u, ColumnKeys(p));
  }

  /** Merging the key order of any rearrangement of the live columns gives
      back that rearrangement: an order the table emits is applied as is. */
  lemma MergeAppliesPermutation(p: seq<ColumnDef>, live: seq<ColumnDef>)
    requires DistinctKeys(live)
    requires multiset(p) == multiset(live)
    ensures MergeOrder(ColumnKeys(p), live) == p
  {
    MergeSplits(ColumnKeys(p), live);
    forall c | c in live ensures c.key in ColumnKeys(p) {
      assert c in multiset(p);
      KeyWitness(p, c.key);
    }
    FilterOutMembers(live, ColumnKeys(p));
    forall c | c in p ensures c in live {
      assert c in multiset(live);
    }
    PickAll(p, live);
  }

  lemma {:induction false} PickAll(p: seq<ColumnDef>, live: seq<ColumnDef>)
    requires DistinctKeys(live)
    requires forall c :: c in p ==> c in live
    ensures PickStored(ColumnKeys(p), live) == p
    decreases |p|
  {
    if p != [] {
      assert ColumnKeys(p)[1..] == ColumnKeys(p[1..]);
      LookupDistinct(live, p[0]);
      PickAll(p[1..], live);
    }
  }

  /** Example: stored [code, name] over live
      [name, code, created_at] gives [code, name, created_at]. */
  lemma ExamplePicks(name: ColumnDef, code: ColumnDef, created: ColumnDef)
    requires name.key == "name" && code.key == "code" && created.key == "created_at"
    ensures PickStored(["code", "name"], [name, code, created]) == [code, name]
  {
    var live := [name, code, created];
    assert "created_at" != "code" && "created_at" != "name" && "code" != "name";
    assert live[..2] == [name, code] && [name, code][..1] == [name];
    assert LookupLast(live, "code") == LookupLast([name, code], "code") == Some(code);
    assert Pick(live, "code") == [code];
    assert LookupLast(live, "name") == LookupLast([name, code], "name") == LookupLast([name], "name");
    assert LookupLast([name], "name") == Some(name);
    assert Pick(live, "name") == [name];
    assert ["code", "name"][1..] == ["name"] && ["name"][1..] == [];
  }

  lemma ExampleAppends(name: ColumnDef, code: ColumnDef, created: ColumnDef)
    requires name.key == "name" && code.key == "code" && created.key == "created_at"
    ensures AppendMissing([code, name], [name, code, created]) == [code, name, created]
  {
    var live, p := [name, code, created], [code, name];
    assert ColumnKeys(p) == ["code", "name"];
    assert "created_at" !in ColumnKeys(p);
    assert live[1..] == [code, created] && live[1..][1..] == [created];
    assert AppendMissing(p, [created]) == p + [created];
  }

  lemma MergeExample()
    ensures var name, code, created := ColumnDef("name", "Nome"), ColumnDef("code", "Código"), ColumnDef("created_at", "Criado em");
      MergeOrder(["code", "name"], [name, code, created]) == [code, name, created]
  {
    var name, code, created := ColumnDef("name", "Nome"), ColumnDef("code", "Código"), ColumnDef("created_at", "Criado em");
    ExamplePicks(name, code, created);
    ExampleAppends(name, code, created);
  }
}
