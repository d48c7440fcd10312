/**
 SortedVectorImpl: binary search, add, remove and the two merges.
 */
module SortedVector {
  import opened Basics
  import opened SharedVector
  import opened VectorSort

  /** do_compare orders its items: three outcomes that agree when turned round, and a
      transitive order. */
  ghost predicate ThreeWay<T(!new)>(cmp: Compare<T>) {
    (forall a, b :: cmp(a, b) < 0 <==> cmp(b, a) > 0) &&
    (forall a, b, c :: Le(cmp, a, b) && Le(cmp, b, c) ==> Le(cmp, a, c))
  }

  ghost predicate Strict<T>(cmp: Compare<T>, s: seq<T>) {
    forall i, j :: 0 <= i < j < |s| ==> cmp(s[i], s[j]) < 0
  }

  /** Everything before o is smaller than x and nothing from o on is. */
  ghost predicate Splits<T>(cmp: Compare<T>, s: seq<T>, x: T, o: nat) {
    o <= |s| && (forall k :: 0 <= k < o ==> cmp(s[k], x) < 0) && (forall k :: o <= k < |s| ==> cmp(s[k], x) >= 0)
  }

  lemma SplitIsUnique<T>(cmp: Compare<T>, s: seq<T>, x: T, o: nat, p: nat)
    requires Splits(cmp, s, x, o) && Splits(cmp, s, x, p)
    ensures o == p
  {
    assert o < |s| ==> cmp(s[o], x) >= 0;
    assert p < |s| ==> cmp(s[p], x) >= 0;
  }

  /** The first place from o on with an item not smaller than x. */
  ghost function LowerFrom<T>(cmp: Compare<T>, s: seq<T>, x: T, o: nat): (p: nat)
    requires o <= |s|
    ensures o <= p <= |s| && (p < |s| ==> cmp(s[p], x) >= 0)
    decreases |s| - o
  {
    if o < |s| && cmp(s[o], x) < 0 then LowerFrom(cmp, s, x, o + 1) else o
  }

  ghost function LowerBound<T>(cmp: Compare<T>, s: seq<T>, x: T): nat { LowerFrom(cmp, s, x, 0) }

  lemma {:induction false} BelowLower<T>(cmp: Compare<T>, s: seq<T>, x: T, o: nat)
    requires o <= |s|
    ensures forall k :: o <= k < LowerFrom(cmp, s, x, o) ==> cmp(s[k], x) < 0
    decreases |s| - o
  {
    if o < |s| && cmp(s[o], x) < 0 { BelowLower(cmp, s, x, o + 1); }
  }

  /** A comparison at one place of a sorted sequence decides one side of it. */
  lemma Decides<T(!new)>(cmp: Compare<T>, s: seq<T>, m: nat, x: T)
    requires ThreeWay(cmp) && Sorted(cmp, s) && m < |s|
    ensures cmp(s[m], x) < 0 ==> forall k :: 0 <= k <= m ==> cmp(s[k], x) < 0
    ensures cmp(s[m], x) > 0 ==> forall k :: m <= k < |s| ==> cmp(s[k], x) > 0
    ensures cmp(s[m], x) >= 0 ==> forall k :: m <= k < |s| ==> cmp(s[k], x) >= 0
  {
    if cmp(s[m], x) < 0 {
      forall k | 0 <= k <= m ensures cmp(s[k], x) < 0 {
        assert Le(cmp, s[k], s[m]);
        assert Le(cmp, x, s[k]) ==> Le(cmp, x, s[m]);
      }
    } else {
      forall k | m <= k < |s| ensures cmp(s[k], x) >= 0 && (cmp(s[m], x) > 0 ==> cmp(s[k], x) > 0) {
        assert Le(cmp, s[m], s[k]) && Le(cmp, x, s[m]);
        assert Le(cmp, s[k], x) ==> Le(cmp, s[m], x);
      }
    }
  }

  /** _indexOrderOf: the place of a match, or the one place where the item fits. */
  method IndexOrderOf<T(!new)>(v: VectorImpl<T>, item: T, cmp: Compare<T>, ghost items: seq<T>)
    returns (index: Option<nat>, order: nat)
    requires v.Contents() == Cells(items) && v.count == |items| && ThreeWay(cmp) && Sorted(cmp, items)
    requires v.storage == null ==> v.count == 0
    ensures index.Some? ==> index.value == order < |items| && cmp(items[order], item) == 0
    ensures index.None? ==> Splits(cmp, items, item, order) && forall k :: 0 <= k < |items| ==> cmp(items[k], item) != 0
  {
    index := None;
    var l, h: int := 0, v.count - 1;
    while l <= h
      invariant 0 <= l <= h + 1 <= |items|
      invariant forall k :: 0 <= k < l ==> cmp(items[k], item) < 0
      invariant forall k :: h < k < |items| ==> cmp(items[k], item) > 0
    {
      var mid := l + (h - l) / 2;
      assert v.storage.data[mid] == v.Contents()[mid];
      var c := cmp(v.storage.data[mid].value, item);
      Decides(cmp, items, mid, item);
      if c == 0 {
        return Some(mid), mid;
      } else if c < 0 {
        l := mid + 1;
      } else {
        h := mid - 1;
      }
    }
    order := l;
  }

  // ---------- what add, remove and merge mean ----------

  /** Replace the item that compares equal, or insert in order. */
  ghost function AddTo<T>(cmp: Compare<T>, s: seq<T>, x: T): seq<T> {
    var o := LowerBound(cmp, s, x);
    if o < |s| && cmp(s[o], x) == 0 then s[o := x] else s[..o] + [x] + s[o..]
  }

  ghost function RemoveFrom<T>(cmp: Compare<T>, s: seq<T>, x: T): seq<T> {
    var o := LowerBound(cmp, s, x);
    if o < |s| && cmp(s[o], x) == 0 then s[..o] + s[o + 1..] else s
  }

  ghost function AddAll<T>(cmp: Compare<T>, s: seq<T>, v: seq<T>): seq<T>
    decreases |v|
  {
    if v == [] then s else AddAll(cmp, AddTo(cmp, s, v[0]), v[1..])
  }

  datatype Side = InFront | InBack | Among

  /** Where all the keys of v lie, as far as the four outermost items tell. */
  function SideOf<T>(cmp: Compare<T>, s: seq<T>, v: seq<T>): Side
    requires s != [] && v != []
  {
    if cmp(v[|v| - 1], s[0]) <= 0 then InFront
    else if cmp(v[0], s[|s| - 1]) >= 0 then InBack
    else Among
  }

  /** The merge of two sorted vectors: whole-vector insertion where the two do not
      interleave.  What it means to merge into an empty one, the code does not say. */
  ghost function MergeTo<T>(cmp: Compare<T>, s: seq<T>, v: seq<T>): seq<T>
    requires s == [] ==> v == []
  {
    if v == [] then s
    else match SideOf(cmp, s, v)
      case InFront => v + s
      case InBack => s + v
      case Among => AddAll(cmp, s, v)
  }

  lemma StrictIsSorted<T>(cmp: Compare<T>, s: seq<T>)
    requires Strict(cmp, s)
    ensures Sorted(cmp, s)
  {
  }

  lemma Above<T(!new)>(cmp: Compare<T>, a: T, b: T, x: T)
    requires ThreeWay(cmp) && cmp(a, b) < 0 && cmp(a, x) >= 0
    ensures cmp(b, x) > 0
  {
    assert Le(cmp, x, a);
    assert Le(cmp, b, x) ==> Le(cmp, b, a);
  }

  /** Where x belongs in a strictly ordered sequence. */
  lemma Place<T(!new)>(cmp: Compare<T>, s: seq<T>, x: T)
    requires ThreeWay(cmp) && Strict(cmp, s)
    ensures var o := LowerBound(cmp, s, x);
            (forall k :: 0 <= k < o ==> cmp(s[k], x) < 0) && (forall k :: o < k < |s| ==> cmp(s[k], x) > 0)
  {
    var o := LowerBound(cmp, s, x);
    BelowLower(cmp, s, x, 0);
    forall k | o < k < |s| ensures cmp(s[k], x) > 0 { Above(cmp, s[o], s[k], x); }
  }

  lemma {:induction false} AddKeepsStrict<T(!new)>(cmp: Compare<T>, s: seq<T>, x: T)
    requires ThreeWay(cmp) && Strict(cmp, s)
    ensures Strict(cmp, AddTo(cmp, s, x))
  {
    Place(cmp, s, x);
    var o, r := LowerBound(cmp, s, x), AddTo(cmp, s, x);
    forall i, j | 0 <= i < j < |r| ensures cmp(r[i], r[j]) < 0 {
      if i == o {
        assert cmp(r[j], x) > 0;
      }
    }
  }

  /** The place of x, and the place behind the items that have its key. */
  ghost function Behind<T>(cmp: Compare<T>, s: seq<T>, x: T): nat {
    var o := LowerBound(cmp, s, x);
    if o < |s| && cmp(s[o], x) == 0 then o + 1 else o
  }

  lemma Parts<T>(cmp: Compare<T>, s: seq<T>, x: T)
    ensures var o, p := LowerBound(cmp, s, x), Behind(cmp, s, x);
            p <= |s| && AddTo(cmp, s, x) == s[..o] + [x] + s[p..] && RemoveFrom(cmp, s, x) == s[..o] + s[p..]
  {
  }

  /** Only the items between the two places have the key of x. */
  lemma KeyAt<T(!new)>(cmp: Compare<T>, s: seq<T>, x: T, k: nat)
    requires ThreeWay(cmp) && Strict(cmp, s) && k < |s|
    ensures cmp(s[k], x) == 0 <==> LowerBound(cmp, s, x) <= k < Behind(cmp, s, x)
  {
    Place(cmp, s, x);
  }

  lemma InParts<T>(s: seq<T>, o: nat, p: nat, y: T)
    requires o <= p <= |s|
    ensures y in s[..o] || y in s[p..] <==> exists k :: 0 <= k < |s| && !(o <= k < p) && s[k] == y
  {
    if y in s[..o] {
      var k :| 0 <= k < o && s[..o][k] == y;
      assert s[k] == y;
    } else if y in s[p..] {
      var k :| 0 <= k < |s| - p && s[p..][k] == y;
      assert s[p + k] == y;
    }
    if k :| 0 <= k < |s| && !(o <= k < p) && s[k] == y {
      assert if k < o then s[..o][k] == y else s[p..][k - p] == y;
    }
  }

  /** The items outside the two places are those with other keys. */
  lemma Others<T(!new)>(cmp: Compare<T>, s: seq<T>, x: T, y: T)
    requires ThreeWay(cmp) && Strict(cmp, s)
    ensures var o, p := LowerBound(cmp, s, x), Behind(cmp, s, x);
            p <= |s| && (y in s[..o] || y in s[p..] <==> y in s && cmp(y, x) != 0)
  {
    var o, p := LowerBound(cmp, s, x), Behind(cmp, s, x);
    InParts(s, o, p, y);
    if y in s {
      var k :| 0 <= k < |s| && s[k] == y;
      KeyAt(cmp, s, x, k);
    }
    if k :| 0 <= k < |s| && !(o <= k < p) && s[k] == y {
      KeyAt(cmp, s, x, k);
    }
  }

  lemma {:induction false} AddMembers<T(!new)>(cmp: Compare<T>, s: seq<T>, x: T, y: T)
    requires ThreeWay(cmp) && Strict(cmp, s)
    ensures y in AddTo(cmp, s, x) <==> y == x || (y in s && cmp(y, x) != 0)
  {
    Parts(cmp, s, x);
    Others(cmp, s, x, y);
  }

  /** A key is gone after remove, and everything else stays. */
  lemma {:induction false} RemoveMembers<T(!new)>(cmp: Compare<T>, s: seq<T>, x: T, y: T)
    requires ThreeWay(cmp) && Strict(cmp, s)
    ensures y in RemoveFrom(cmp, s, x) <==> y in s && cmp(y, x) != 0
  {
    Parts(cmp, s, x);
    Others(cmp, s, x, y);
  }

  lemma RemoveKeepsStrict<T>(cmp: Compare<T>, s: seq<T>, x: T)
    requires Strict(cmp, s)
    ensures Strict(cmp, RemoveFrom(cmp, s, x))
  {
  }

  lemma {:induction false} AddAllKeepsStrict<T(!new)>(cmp: Compare<T>, s: seq<T>, v: seq<T>)
    requires ThreeWay(cmp) && Strict(cmp, s)
    ensures Strict(cmp, AddAll(cmp, s, v))
    decreases |v|
  {
    if v != [] {
      AddKeepsStrict(cmp, s, v[0]);
      AddAllKeepsStrict(cmp, AddTo(cmp, s, v[0]), v[1..]);
    }
  }

  // ---------- the fast merge against repeated add ----------

  /** Items that belong between p and s, added one by one, end up between them. */
  lemma {:induction false} AddBetween<T(!new)>(cmp: Compare<T>, p: seq<T>, v: seq<T>, s: seq<T>)
    requires ThreeWay(cmp) && Strict(cmp, p + v + s)
    ensures AddAll(cmp, p + s, v) == p + v + s
    decreases |v|
  {
    if v == [] {
      assert p + v + s == p + s;
    } else {
      var x := v[0];
      Around(cmp, p, v, s);
      SplitAt(cmp, p, s, x);
      assert p + [x] + v[1..] + s == p + v + s;
      AddBetween(cmp, p + [x], v[1..], s);
    }
  }

  lemma Around<T>(cmp: Compare<T>, p: seq<T>, v: seq<T>, s: seq<T>)
    requires Strict(cmp, p + v + s) && v != []
    ensures forall k :: 0 <= k < |p| ==> cmp(p[k], v[0]) < 0
    ensures forall k :: 0 <= k < |s| ==> cmp(v[0], s[k]) < 0
  {
    var all := p + v + s;
    assert forall k :: 0 <= k < |p| ==> all[k] == p[k];
    assert all[|p|] == v[0];
    assert forall k :: 0 <= k < |s| ==> all[|p| + |v| + k] == s[k];
  }

  lemma SplitAt<T(!new)>(cmp: Compare<T>, p: seq<T>, s: seq<T>, x: T)
    requires ThreeWay(cmp)
    requires forall k :: 0 <= k < |p| ==> cmp(p[k], x) < 0
    requires forall k :: 0 <= k < |s| ==> cmp(x, s[k]) < 0
    ensures AddTo(cmp, p + s, x) == p + [x] + s
  {
    var o, q := LowerBound(cmp, p + s, x), p + s;
    BelowLower(cmp, q, x, 0);
    assert forall k :: 0 <= k < |p| ==> q[k] == p[k];
    assert s != [] ==> q[|p|] == s[0];
  }

  lemma {:induction false} AddAllConcat<T>(cmp: Compare<T>, s: seq<T>, a: seq<T>, b: seq<T>)
    ensures AddAll(cmp, s, a + b) == AddAll(cmp, AddAll(cmp, s, a), b)
    decreases |a|
  {
    if a == [] {
      assert a + b == b;
    } else {
      assert (a + b)[1..] == a[1..] + b;
      AddAllConcat(cmp, AddTo(cmp, s, a[0]), a[1..], b);
    }
  }

  lemma {:induction false} AddAllLength<T>(cmp: Compare<T>, s: seq<T>, v: seq<T>)
    ensures |AddAll(cmp, s, v)| <= |s| + |v|
    decreases |v|
  {
    if v != [] { AddAllLength(cmp, AddTo(cmp, s, v[0]), v[1..]); }
  }

  /** Two strictly ordered sequences laid end to end. */
  lemma {:induction false} EndToEnd<T(!new)>(cmp: Compare<T>, a: seq<T>, b: seq<T>)
    requires ThreeWay(cmp) && Strict(cmp, a) && Strict(cmp, b) && a != [] && b != []
    ensures Le(cmp, a[|a| - 1], b[0]) ==> Sorted(cmp, a + b)
    ensures cmp(a[|a| - 1], b[0]) < 0 ==> Strict(cmp, a + b)
    ensures Le(cmp, a[|a| - 1], b[0]) ==> Strict(cmp, a[..|a| - 1] + b)
  {
    var last := a[|a| - 1];
    if Le(cmp, last, b[0]) {
      forall i, j | 0 <= i < |a| && 0 <= j < |b|
        ensures Le(cmp, a[i], b[j]) && (i < |a| - 1 || cmp(last, b[0]) < 0 ==> cmp(a[i], b[j]) < 0)
      {
        assert Le(cmp, a[i], last) && Le(cmp, b[0], b[j]) && Le(cmp, last, b[j]);
        assert Le(cmp, b[j], a[i]) ==> Le(cmp, b[j], last);
        assert Le(cmp, b[j], a[i]) ==> Le(cmp, last, a[i]) && Le(cmp, b[0], a[i]) && Le(cmp, b[0], last);
      }
    }
  }

  /** The key at which the merged vectors would touch occurs in both. */
  ghost predicate SharesBoundary<T>(cmp: Compare<T>, s: seq<T>, v: seq<T>)
    requires s != []
  {
    v != [] &&
    if cmp(v[|v| - 1], s[0]) <= 0 then cmp(v[|v| - 1], s[0]) == 0 else cmp(v[0], s[|s| - 1]) == 0
  }

  lemma {:induction false} MergeInFront<T(!new)>(cmp: Compare<T>, s: seq<T>, v: seq<T>)
    requires ThreeWay(cmp) && Strict(cmp, s) && Strict(cmp, v) && s != [] && v != []
    requires cmp(v[|v| - 1], s[0]) <= 0
    ensures AddAll(cmp, s, v) == v + s <==> cmp(v[|v| - 1], s[0]) < 0
  {
    EndToEnd(cmp, v, s);
    if cmp(v[|v| - 1], s[0]) < 0 {
      AddBefore(cmp, v, s);
    } else {
      var u, x := v[..|v| - 1], v[|v| - 1];
      AddBefore(cmp, u, s);
      assert v == u + [x];
      AddAllConcat(cmp, s, u, [x]);
      Replaces(cmp, u + s, x, |u|);
      AddAllOne(cmp, u + s, x);
    }
  }

  lemma AddBefore<T(!new)>(cmp: Compare<T>, v: seq<T>, s: seq<T>)
    requires ThreeWay(cmp) && Strict(cmp, v + s)
    ensures AddAll(cmp, s, v) == v + s
  {
    assert [] + s == s && [] + v == v;
    AddBetween(cmp, [], v, s);
  }

  lemma AddAllOne<T>(cmp: Compare<T>, s: seq<T>, x: T)
    ensures AddAll(cmp, s, [x]) == AddTo(cmp, s, x)
  {
    assert [x][1..] == [] && AddAll(cmp, s, [x]) == AddAll(cmp, AddTo(cmp, s, x), []);
  }

  /** Adding a key that is there replaces it. */
  lemma {:induction false} Replaces<T(!new)>(cmp: Compare<T>, s: seq<T>, x: T, k: nat)
    requires ThreeWay(cmp) && Strict(cmp, s) && k < |s| && cmp(s[k], x) == 0
    ensures |AddTo(cmp, s, x)| == |s|
  {
    Place(cmp, s, x);
  }

  lemma {:induction false} MergeBehind<T(!new)>(cmp: Compare<T>, s: seq<T>, v: seq<T>)
    requires ThreeWay(cmp) && Strict(cmp, s) && Strict(cmp, v) && s != [] && v != []
    requires cmp(v[0], s[|s| - 1]) >= 0
    ensures AddAll(cmp, s, v) == s + v <==> cmp(v[0], s[|s| - 1]) > 0
  {
    if cmp(v[0], s[|s| - 1]) > 0 {
      EndToEnd(cmp, s, v);
      assert s + [] == s && s + v + [] == s + v;
      AddBetween(cmp, s, v, []);
    } else {
      Replaces(cmp, s, v[0], |s| - 1);
      AddAllLength(cmp, AddTo(cmp, s, v[0]), v[1..]);
    }
  }

  /** The fast merge always leaves an ordered vector, and it is what repeated add gives
      exactly when the two vectors do not meet in a common key. */
  lemma {:induction false} MergeAgreesIff<T(!new)>(cmp: Compare<T>, s: seq<T>, v: seq<T>)
    requires ThreeWay(cmp) && Strict(cmp, s) && Strict(cmp, v) && s != []
    ensures Sorted(cmp, MergeTo(cmp, s, v))
    ensures MergeTo(cmp, s, v) == AddAll(cmp, s, v) <==> !SharesBoundary(cmp, s, v)
  {
    if v != [] {
      if cmp(v[|v| - 1], s[0]) <= 0 {
        MergeInFront(cmp, s, v);
        EndToEnd(cmp, v, s);
      } else if cmp(v[0], s[|s| - 1]) >= 0 {
        MergeBehind(cmp, s, v);
        EndToEnd(cmp, s, v);
      } else {
        AddAllKeepsStrict(cmp, s, v);
      }
    }
  }

  // ---------- the code ----------

  lemma CellsParts<T>(items: seq<T>, o: nat, x: T)
    requires o <= |items|
    ensures Splice(Cells(items), o, Copies(x, 1)) == Cells(items[..o] + [x] + items[o..])
    ensures o < |items| ==> Cells(items)[o := Item(x)] == Cells(items[o := x])
    ensures o < |items| ==> Cut(Cells(items), o, 1) == Cells(items[..o] + items[o + 1..])
  {
  }

  /** What the search found is what AddTo and RemoveFrom look for. */
  lemma FoundPlace<T(!new)>(cmp: Compare<T>, s: seq<T>, x: T, index: Option<nat>, order: nat)
    requires ThreeWay(cmp) && Strict(cmp, s)
    requires index.Some? ==> index.value == order < |s| && cmp(s[order], x) == 0
    requires index.None? ==> Splits(cmp, s, x, order) && forall k :: 0 <= k < |s| ==> cmp(s[k], x) != 0
    ensures order == LowerBound(cmp, s, x)
    ensures index.Some? <==> order < |s| && cmp(s[order], x) == 0
  {
    Place(cmp, s, x);
  }

  /** add finds no memory: to copy a shared buffer where it replaces, or for _grow where it
      inserts. */
  ghost predicate AddFails<T>(v: VectorImpl<T>, cmp: Compare<T>, items: seq<T>, item: T, mem: Memory)
    reads v, v.storage
  {
    var o := LowerBound(cmp, items, item);
    if o < |items| && cmp(items[o], item) == 0 then v.storage == null || (v.storage.refs != 1 && !mem.allocOk)
    else v.GrowFails(o, 1, mem)
  }

  lemma AddedAt<T>(cmp: Compare<T>, items: seq<T>, item: T, index: Option<nat>, order: nat, after: seq<T>)
    requires order == LowerBound(cmp, items, item) && after == AddTo(cmp, items, item)
    requires index.Some? <==> order < |items| && cmp(items[order], item) == 0
    ensures after == if index.Some? then items[order := item] else items[..order] + [item] + items[order..]
    ensures order < |after| && after[order] == item
  {
  }

  lemma FailsAt<T>(v: VectorImpl<T>, cmp: Compare<T>, items: seq<T>, item: T, mem: Memory, index: Option<nat>, order: nat)
    requires order == LowerBound(cmp, items, item) && (index.Some? <==> order < |items| && cmp(items[order], item) == 0)
    ensures AddFails(v, cmp, items, item, mem) <==>
            if index.Some? then v.storage == null || (v.storage.refs != 1 && !mem.allocOk) else v.GrowFails(order, 1, mem)
  {
  }

  /** A replacement leaves the vector the only owner of its buffer; it is the one it had if
      nobody shared that. */
  twostate predicate ReplacesInPlace<T>(v: VectorImpl<T>, r: Status)
    reads v, v.storage
  {
    old(v.storage) != null && (old(v.storage.refs) == 1 ==> v.storage == old(v.storage)) &&
    (r.Done? ==> v.storage != null && v.storage.refs == 1)
  }

  /** The search, and the place it finds. */
  method Locate<T(!new)>(v: VectorImpl<T>, item: T, cmp: Compare<T>, ghost items: seq<T>)
    returns (index: Option<nat>, order: nat)
    requires v.Contents() == Cells(items) && v.count == |items| && (v.storage == null ==> v.count == 0)
    requires ThreeWay(cmp) && Strict(cmp, items)
    ensures order == LowerBound(cmp, items, item) <= |items| && (index.Some? ==> index.value == order)
    ensures index.Some? <==> order < |items| && cmp(items[order], item) == 0
    ensures index.Some? <==> exists k :: 0 <= k < |items| && cmp(items[k], item) == 0
  {
    StrictIsSorted(cmp, items);
    index, order := IndexOrderOf(v, item, cmp, items);
    FoundPlace(cmp, items, item, index, order);
  }

  /** The write of add: over the match, or between its neighbours. */
  method PutAt<T>(v: VectorImpl<T>, item: T, index: Option<nat>, order: nat, mem: Memory, ghost items: seq<T>,
                  ghost fam: set<VectorImpl<T>>)
    returns (r: Status)
    requires v in fam && Family(fam, v.itemSize) && v.Contents() == Cells(items)
    requires order <= |items| && (index.Some? ==> index.value == order < |items|)
    modifies v, v.storage
    ensures Family(fam, v.itemSize) && v.OthersKept(fam) && v.GaveUp(old(v.storage))
    ensures r == Done(order) || r.NoMemory? || r.Aborted?
    ensures index.Some? ==>
              ReplacesInPlace(v, r) && (r.Done? <==> old(v.storage) != null && (mem.allocOk || old(v.storage.refs) == 1))
    ensures index.None? ==> (r.Done? <==> !old(v.GrowFails(order, 1, mem)))
    ensures index.None? && !r.Done? ==> v.GrowFails(order, 1, mem)
    ensures r.Done? ==>
              v.Contents() == Cells(if index.Some? then items[order := item] else items[..order] + [item] + items[order..])
    ensures !r.Done? ==> v.Contents() == Cells(items) && v.storage == old(v.storage) && v.Room() == old(v.Room())
    ensures !r.Done? ==> v.count == old(v.count) && (v.storage != null ==> v.storage.refs == old(v.storage.refs))
  {
    assert MemberOk(fam, v, v.itemSize);
    CellsParts(items, order, item);
    if index.None? {
      ghost var moved;
      r, moved := v.InsertAt(Some(item), item, order, 1, mem, fam);
    } else {
      assert v in Owners(fam, v.storage);
      r := v.ReplaceAt(Given(item), item, index.value, mem, fam);
    }
  }

  /** The write at the place found. */
  method PutInOrder<T>(v: VectorImpl<T>, item: T, index: Option<nat>, order: nat, ghost cmp: Compare<T>, mem: Memory,
                       ghost items: seq<T>, ghost fam: set<VectorImpl<T>>)
    returns (r: Status)
    requires v in fam && Family(fam, v.itemSize) && v.Contents() == Cells(items)
    requires order == LowerBound(cmp, items, item) <= |items| && (index.Some? ==> index.value == order)
    requires index.Some? <==> order < |items| && cmp(items[order], item) == 0
    modifies v, v.storage
    ensures Family(fam, v.itemSize) && v.OthersKept(fam) && v.GaveUp(old(v.storage))
    ensures v.Contents() == Cells(if r.Done? then AddTo(cmp, items, item) else items)
    ensures r.Done? ==> r.index < |AddTo(cmp, items, item)| && AddTo(cmp, items, item)[r.index] == item
    ensures !r.Done? ==> r.NoMemory? || r.Aborted?
    ensures !r.Done? <==> old(AddFails(v, cmp, items, item, mem))
    ensures !r.Done? ==> v.storage == old(v.storage) && AddFails(v, cmp, items, item, mem)
    ensures index.Some? ==> ReplacesInPlace(v, r)
  {
    AddedAt(cmp, items, item, index, order, AddTo(cmp, items, item));
    FailsAt(v, cmp, items, item, mem, index, order);
    r := PutAt(v, item, index, order, mem, items, fam);
    FailsAt(v, cmp, items, item, mem, index, order);
  }

  /** add: the index at which the item is then, with everything else in its place. */
  method Add<T(!new)>(v: VectorImpl<T>, item: T, cmp: Compare<T>, mem: Memory, ghost items: seq<T>,
                      ghost fam: set<VectorImpl<T>>)
    returns (r: Status)
    requires v in fam && Family(fam, v.itemSize) && v.Contents() == Cells(items)
    requires ThreeWay(cmp) && Strict(cmp, items)
    modifies v, v.storage
    ensures Family(fam, v.itemSize) && v.OthersKept(fam) && v.GaveUp(old(v.storage))
    ensures v.Contents() == Cells(if r.Done? then AddTo(cmp, items, item) else items)
    ensures r.Done? ==> r.index < |AddTo(cmp, items, item)| && AddTo(cmp, items, item)[r.index] == item
    ensures !r.Done? ==> r.NoMemory? || r.Aborted?
    ensures !r.Done? <==> old(AddFails(v, cmp, items, item, mem))
    ensures !r.Done? ==> v.storage == old(v.storage) && AddFails(v, cmp, items, item, mem)
    ensures forall k :: 0 <= k < |items| && cmp(items[k], item) == 0 ==> ReplacesInPlace(v, r)
  {
    assert MemberOk(fam, v, v.itemSize);
    var index, order := Locate(v, item, cmp, items);
    r := PutInOrder(v, item, index, order, cmp, mem, items, fam);
  }

  /** remove: the index that held the key, whether or not the item went.  It stays exactly
      where _shrink gives up without a word. */
  method Remove<T(!new)>(v: VectorImpl<T>, item: T, cmp: Compare<T>, mem: Memory, ghost items: seq<T>,
                         ghost fam: set<VectorImpl<T>>)
    returns (index: Option<nat>, r: Status)
    requires v in fam && Family(fam, v.itemSize) && v.Contents() == Cells(items)
    requires ThreeWay(cmp) && Strict(cmp, items)
    modifies v, v.storage
    ensures Family(fam, v.itemSize) && v.OthersKept(fam)
    ensures index.None? ==> forall k :: 0 <= k < |items| ==> cmp(items[k], item) != 0
    ensures index.Some? ==> index.value < |items| == old(v.count) && cmp(items[index.value], item) == 0
    ensures r.Done? || r.Aborted?
    ensures r.Aborted? <==> index.Some? && old(v.ShrinkFatal(1, mem))
    ensures v.Contents() ==
            Cells(if r.Aborted? || (index.Some? && old(v.ShrinkStarves(index.value, 1, mem))) then items
                  else RemoveFrom(cmp, items, item))
    ensures mem.allocOk && MIN_VECTOR_CAPACITY <= old(v.Room()) ==> v.Contents() == Cells(RemoveFrom(cmp, items, item))
  {
    assert MemberOk(fam, v, v.itemSize);
    var order;
    index, order := Locate(v, item, cmp, items);
    CellsParts(items, order, item);
    r := Done(0);
    if index.Some? {
      BytesAtLeast(v.Room(), v.itemSize);
      r := v.RemoveItemsAt(index.value, 1, mem, fam);
    }
  }

  /** merge(const VectorImpl&): add one by one, until one addition fails. */
  method MergeEach<T(!new)>(v: VectorImpl<T>, w: VectorImpl<T>, cmp: Compare<T>, mem: Memory,
                            ghost items: seq<T>, ghost others: seq<T>, ghost fam: set<VectorImpl<T>>)
    returns (r: Status, ghost added: nat)
    requires v in fam && w in fam && v != w && Family(fam, v.itemSize)
    requires v.Contents() == Cells(items) && w.Contents() == Cells(others)
    requires ThreeWay(cmp) && Strict(cmp, items)
    modifies v, v.storage
    ensures Family(fam, v.itemSize) && v.OthersKept(fam)
    ensures added <= |others| && v.Contents() == Cells(AddAll(cmp, items, others[..added]))
    ensures r.Done? ==> added == |others|
    ensures !r.Done? ==>
              !r.Undefined? && added < |others| &&
              AddFails(v, cmp, AddAll(cmp, items, others[..added]), others[added], mem)
  {
    r, added := Done(0), 0;
    assert MemberOk(fam, w, v.itemSize);
    var s, i := w.count, 0;
    assert others[..0] == [];
    while i < s
      invariant 0 <= i == added <= s == |others| && r.Done? && Family(fam, v.itemSize) && v.OthersKept(fam)
      invariant v.Contents() == Cells(AddAll(cmp, items, others[..i]))
      invariant v.storage != old(v.storage) ==> fresh(v.storage)
    {
      r := MergeOne(v, w, i, cmp, mem, items, others, fam);
      if !r.Done? { return; }
      i, added := i + 1, added + 1;
    }
  }

  method MergeOne<T(!new)>(v: VectorImpl<T>, w: VectorImpl<T>, i: nat, cmp: Compare<T>, mem: Memory,
                           ghost items: seq<T>, ghost others: seq<T>, ghost fam: set<VectorImpl<T>>)
    returns (r: Status)
    requires v in fam && w in fam && v != w && Family(fam, v.itemSize) && i < |others|
    requires v.Contents() == Cells(AddAll(cmp, items, others[..i])) && w.Contents() == Cells(others)
    requires ThreeWay(cmp) && Strict(cmp, items)
    modifies v, v.storage
    ensures Family(fam, v.itemSize) && v.OthersKept(fam)
    ensures r.Done? ==> v.Contents() == Cells(AddAll(cmp, items, others[..i + 1]))
    ensures !r.Done? ==> v.Contents() == Cells(AddAll(cmp, items, others[..i]))
    ensures v.storage != old(v.storage) ==> fresh(v.storage)
    ensures !r.Done? ==> !r.Undefined? && AddFails(v, cmp, AddAll(cmp, items, others[..i]), others[i], mem)
  {
    assert MemberOk(fam, w, v.itemSize);
    assert w.storage.data[i] == w.Contents()[i];
    var x := w.storage.data[i].value;
    assert x == others[i];
    ghost var merged := AddAll(cmp, items, others[..i]);
    AddAllKeepsStrict(cmp, items, others[..i]);
    AddAllSnoc(cmp, items, others, i);
    r := Add(v, x, cmp, mem, merged, fam);
  }

  lemma {:induction false} AddAllSnoc<T>(cmp: Compare<T>, s: seq<T>, v: seq<T>, i: nat)
    requires i < |v|
    ensures AddAll(cmp, s, v[..i + 1]) == AddTo(cmp, AddAll(cmp, s, v[..i]), v[i])
  {
    assert v[..i + 1] == v[..i] + [v[i]];
    AddAllConcat(cmp, s, v[..i], [v[i]]);
    AddAllOne(cmp, AddAll(cmp, s, v[..i]), v[i]);
  }

  /** The fast path: all items of the other vector at once, in front or behind. */
  method MergeWhole<T>(v: VectorImpl<T>, w: VectorImpl<T>, front: bool, mem: Memory,
                       ghost items: seq<T>, ghost others: seq<T>, ghost fam: set<VectorImpl<T>>)
    returns (r: Status)
    requires v in fam && w in fam && v != w && Family(fam, v.itemSize) && others != []
    requires v.Contents() == Cells(items) && w.Contents() == Cells(others)
    modifies v, v.storage
    ensures Family(fam, v.itemSize) && v.OthersKept(fam)
    ensures r.Done? ==> v.Contents() == Cells(if front then others + items else items + others)
    ensures !r.Done? ==> !r.Undefined? && v.Contents() == Cells(items)
    ensures r.Done? <==> !old(v.GrowFails(if front then 0 else |items|, |others|, mem))
  {
    assert MemberOk(fam, v, v.itemSize) && MemberOk(fam, w, v.itemSize);
    MergeCells(items, others);
    r := v.InsertArrayAt(w.storage.data[..w.count], if front then 0 else v.count, mem, fam);
  }

  /** merge(const SortedVectorImpl&) of another vector.  The code compares with the
      receiver's first and last items without looking whether there are any. */
  method Merge<T(!new)>(v: VectorImpl<T>, w: VectorImpl<T>, cmp: Compare<T>, mem: Memory,
                        ghost items: seq<T>, ghost others: seq<T>, ghost fam: set<VectorImpl<T>>)
    returns (r: Status, ghost added: nat)
    requires v in fam && w in fam && v != w && Family(fam, v.itemSize)
    requires v.Contents() == Cells(items) && w.Contents() == Cells(others)
    requires ThreeWay(cmp) && Strict(cmp, items)
    modifies v, v.storage
    ensures Family(fam, v.itemSize) && v.OthersKept(fam)
    ensures r.Undefined? <==> items == [] && others != []
    ensures r.Done? ==> v.Contents() == Cells(MergeTo(cmp, items, others))
    ensures others == [] ==> r.Done?
    ensures items != [] && others != [] && SideOf(cmp, items, others) != Among ==>
              (r.Done? <==> !old(v.GrowFails(if SideOf(cmp, items, others).InFront? then 0 else |items|, |others|, mem)))
    ensures items != [] && others != [] && SideOf(cmp, items, others) == Among && !r.Done? ==>
              added < |others| && AddFails(v, cmp, AddAll(cmp, items, others[..added]), others[added], mem)
  {
    assert MemberOk(fam, v, v.itemSize) && MemberOk(fam, w, v.itemSize);
    added := 0;
    if w.count == 0 { return Done(0), 0; }
    if v.count == 0 { return Undefined, 0; }
    var side := CompareEnds(v, w, cmp, items, others);
    if side.Among? {
      r, added := MergeEach(v, w, cmp, mem, items, others, fam);
      assert others[..|others|] == others;
    } else {
      r := MergeWhole(v, w, side.InFront?, mem, items, others, fam);
    }
  }

  /** merge(const VectorImpl&) of the vector itself: each item replaces itself.  The items
      are read from the buffer the vector had at first, which outlives every addition. */
  method MergeEachSelf<T(!new)>(v: VectorImpl<T>, cmp: Compare<T>, mem: Memory, ghost items: seq<T>,
                                ghost fam: set<VectorImpl<T>>)
    returns (r: Status)
    requires v in fam && Family(fam, v.itemSize) && v.Contents() == Cells(items)
    requires ThreeWay(cmp) && Strict(cmp, items)
    modifies v, v.storage
    ensures Family(fam, v.itemSize) && v.OthersKept(fam) && v.Contents() == Cells(items)
    ensures r.Done? <==> items == [] || mem.allocOk || old(v.storage.refs) == 1
  {
    r := Done(0);
    assert MemberOk(fam, v, v.itemSize);
    var buffer, s, i := v.storage, v.count, 0;
    if s == 0 { return; }
    assert v in Owners(fam, v.storage);
    while i < s
      invariant 0 <= i <= s == |items| && r.Done? && Family(fam, v.itemSize) && v.OthersKept(fam)
      invariant v.Contents() == Cells(items) && v.storage != null
      invariant !buffer.freed && s <= |buffer.data| && buffer.data[..s] == Cells(items)
      invariant v.storage == buffer ==> buffer.refs == old(v.storage.refs)
      invariant v.storage != buffer ==> fresh(v.storage) && v.storage.refs == 1 && mem.allocOk
      invariant i > 0 ==> mem.allocOk || old(v.storage.refs) == 1
    {
      r := AddOwn(v, buffer, i, cmp, mem, items, fam);
      if !r.Done? { return; }
      i := i + 1;
    }
  }

  /** add of an item that the vector holds at i, read from a buffer that holds the same. */
  method AddOwn<T(!new)>(v: VectorImpl<T>, buffer: SharedBuffer<T>, i: nat, cmp: Compare<T>, mem: Memory,
                         ghost items: seq<T>, ghost fam: set<VectorImpl<T>>)
    returns (r: Status)
    requires v in fam && Family(fam, v.itemSize) && v.Contents() == Cells(items) && v.storage != null
    requires ThreeWay(cmp) && Strict(cmp, items) && i < |items| <= |buffer.data|
    requires !buffer.freed && buffer.data[..|items|] == Cells(items)
    modifies v, v.storage
    ensures Family(fam, v.itemSize) && v.OthersKept(fam) && v.Contents() == Cells(items) && v.storage != null
    ensures r.Done? <==> mem.allocOk || old(v.storage.refs) == 1
    ensures v.storage == old(v.storage) ==> v.storage.refs == old(v.storage.refs)
    ensures v.storage != old(v.storage) ==> fresh(v.storage) && v.storage.refs == 1 && old(v.storage.refs) != 1
    ensures !buffer.freed && |items| <= |buffer.data| && buffer.data[..|items|] == Cells(items)
  {
    assert MemberOk(fam, v, v.itemSize);
    assert buffer.data[i] == buffer.data[..|items|][i];
    var x := buffer.data[i].value;
    AddsItself(cmp, items, i);
    r := Add(v, x, cmp, mem, items, fam);
    assert MemberOk(fam, v, v.itemSize);
  }

  lemma AddsItself<T(!new)>(cmp: Compare<T>, s: seq<T>, i: nat)
    requires ThreeWay(cmp) && Strict(cmp, s) && i < |s|
    ensures AddTo(cmp, s, s[i]) == s && cmp(s[i], s[i]) == 0 && LowerBound(cmp, s, s[i]) == i
  {
    Place(cmp, s, s[i]);
  }

  /** merge(const SortedVectorImpl&) of the vector itself.  A single item does not lie among
      itself: it is inserted in front, which is sound only in a shared buffer, and makes a
      duplicate. */
  method MergeSelf<T(!new)>(v: VectorImpl<T>, cmp: Compare<T>, mem: Memory, ghost items: seq<T>,
                            ghost fam: set<VectorImpl<T>>)
    returns (r: Status)
    requires v in fam && Family(fam, v.itemSize) && v.Contents() == Cells(items)
    requires ThreeWay(cmp) && Strict(cmp, items)
    modifies v, v.storage
    ensures Family(fam, v.itemSize) && v.OthersKept(fam)
    ensures |items| != 1 ==>
              v.Contents() == Cells(items) && (r.Done? <==> items == [] || mem.allocOk || old(v.storage.refs) == 1)
    ensures |items| == 1 && r.Done? ==> v.Contents() == Cells(items + items)
    ensures |items| == 1 ==>
              (r.Done? <==> !old(v.GrowFails(0, 1, mem)) && old(v.storage.refs) > 1) &&
              (r.Undefined? <==> !old(v.GrowFails(0, 1, mem)) && old(v.storage.refs) == 1)
  {
    assert MemberOk(fam, v, v.itemSize);
    if v.count == 0 { return Done(0); }
    assert v in Owners(fam, v.storage);
    var side := CompareEnds(v, v, cmp, items, items);
    SelfSide(cmp, items);
    if side.Among? {
      r := MergeEachSelf(v, cmp, mem, items, fam);
    } else {
      MergeCells(items, items);
      r := v.InsertSelfAt(0, mem, fam);
    }
  }

  lemma SelfSide<T(!new)>(cmp: Compare<T>, s: seq<T>)
    requires ThreeWay(cmp) && Strict(cmp, s) && s != []
    ensures SideOf(cmp, s, s) == if |s| == 1 then InFront else Among
  {
    AddsItself(cmp, s, 0);
  }

  /** merge's first look: the outermost items, compared in the buffers. */
  function CompareEnds<T>(v: VectorImpl<T>, w: VectorImpl<T>, cmp: Compare<T>,
                          ghost items: seq<T>, ghost others: seq<T>): (r: Side)
    requires items != [] && others != []
    requires v.Contents() == Cells(items) && w.Contents() == Cells(others)
    reads v, v.storage, w, w.storage
    ensures r == SideOf(cmp, items, others)
  {
    assert v.storage.data[0] == v.Contents()[0] && v.storage.data[v.count - 1] == v.Contents()[v.count - 1];
    assert w.storage.data[0] == w.Contents()[0] && w.storage.data[w.count - 1] == w.Contents()[w.count - 1];
    if cmp(w.storage.data[w.count - 1].value, v.storage.data[0].value) <= 0 then InFront
    else if cmp(w.storage.data[0].value, v.storage.data[v.count - 1].value) >= 0 then InBack
    else Among
  }

  lemma MergeCells<T>(items: seq<T>, others: seq<T>)
    ensures Splice(Cells(items), 0, Cells(others)) == Cells(others + items)
    ensures Splice(Cells(items), |items|, Cells(others)) == Cells(items + others)
  {
  }

  // ---------- two merges ----------

  function Difference(a: int, b: int): int { a - b }

  /** Two vectors that meet in the key b, which the fast merge keeps twice. */
  lemma BoundaryTwice<T(!new)>(cmp: Compare<T>, a: T, b: T, c: T)
    requires ThreeWay(cmp) && Strict(cmp, [a, b]) && Strict(cmp, [b, c])
    ensures MergeTo(cmp, [a, b], [b, c]) == [a, b, b, c]
    ensures AddAll(cmp, [a, b], [b, c]) == [a, b, c]
  {
    var s, v := [a, b], [b, c];
    assert cmp(s[0], s[1]) < 0 && cmp(v[0], v[1]) < 0;
    Above(cmp, b, c, a);
    AddsItself(cmp, s, 1);
    AddsItself(cmp, v, 0);
    Appended(cmp, s, c);
    assert v[1..] == [c] && AddAll(cmp, s, v) == AddAll(cmp, s, [c]);
    AddAllOne(cmp, s, c);
  }

  lemma IntegersCompare()
    ensures ThreeWay(Difference) && Strict(Difference, [1, 2]) && Strict(Difference, [2, 3])
  {
  }

  /** Merging [2, 3] into [1, 2]. */
  lemma TwoTwice()
    ensures MergeTo(Difference, [1, 2], [2, 3]) == [1, 2, 2, 3]
    ensures AddAll(Difference, [1, 2], [2, 3]) == [1, 2, 3]
  {
    IntegersCompare();
    BoundaryTwice(Difference, 1, 2, 3);
  }

  lemma Appended<T(!new)>(cmp: Compare<T>, s: seq<T>, x: T)
    requires ThreeWay(cmp) && forall k :: 0 <= k < |s| ==> cmp(s[k], x) < 0
    ensures AddTo(cmp, s, x) == s + [x]
  {
    assert s + [] == s;
    SplitAt(cmp, s, [], x);
    assert s + [x] + [] == s + [x];
  }

  /** Merging one item into an empty vector compares it with an item that is not there. */
  method EmptyReceiver() returns (r: Status)
    ensures r.Undefined?
  {
    IntegersCompare();
    var w := OneItem();
    var v := new VectorImpl<int>(1, Flags(false, false, false));
    assert Owners({v, w}, w.storage) == {w};
    assert MemberOk({w}, w, 1) && MemberOk({v, w}, v, 1) && MemberOk({v, w}, w, 1);
    assert v.Contents() == Cells([]) && w.Contents() == Cells([7]);
    ghost var added;
    r, added := Merge(v, w, Difference, Memory(true, true), [], [7], {v, w});
  }
}
