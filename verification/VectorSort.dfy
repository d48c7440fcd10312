/**
 VectorImpl::sort: a stable insertion sort on a shared vector.
 */
module VectorSort {
  import opened SharedVector

  type Compare<!T> = (T, T) -> int

  predicate Le<T>(cmp: Compare<T>, a: T, b: T) { cmp(a, b) <= 0 }

  ghost predicate TotalPreorder<T(!new)>(cmp: Compare<T>) {
    (forall a, b :: Le(cmp, a, b) || Le(cmp, b, a)) &&
    (forall a, b, c :: Le(cmp, a, b) && Le(cmp, b, c) ==> Le(cmp, a, c))
  }

  ghost predicate Sorted<T>(cmp: Compare<T>, s: seq<T>) {
    forall i, j :: 0 <= i < j < |s| ==> Le(cmp, s[i], s[j])
  }

  /** The elements that compare equal to x, in the order they stand in. */
  ghost function Class<T>(cmp: Compare<T>, s: seq<T>, x: T): seq<T> {
    if s == [] then []
    else (if Le(cmp, s[0], x) && Le(cmp, x, s[0]) then [s[0]] else []) + Class(cmp, s[1..], x)
  }

  // ---------- the specification ----------

  /** x put behind everything that is not greater, starting from the right. */
  ghost function Insert<T>(cmp: Compare<T>, s: seq<T>, x: T): (r: seq<T>)
    ensures |r| == |s| + 1
  {
    if s == [] || Le(cmp, s[|s| - 1], x) then s + [x]
    else Insert(cmp, s[..|s| - 1], x) + [s[|s| - 1]]
  }

  ghost function InsertionSort<T>(cmp: Compare<T>, s: seq<T>): (r: seq<T>)
    ensures |r| == |s|
  {
    if s == [] then [] else Insert(cmp, InsertionSort(cmp, s[..|s| - 1]), s[|s| - 1])
  }

  lemma {:induction false} InsertSorted<T(!new)>(cmp: Compare<T>, s: seq<T>, x: T)
    requires TotalPreorder(cmp) && Sorted(cmp, s)
    ensures Sorted(cmp, Insert(cmp, s, x))
    ensures forall i :: 0 <= i <= |s| ==> Insert(cmp, s, x)[i] in s + [x]
  {
    if s != [] && !Le(cmp, s[|s| - 1], x) {
      var t, last := s[..|s| - 1], s[|s| - 1];
      InsertSorted(cmp, t, x);
      var r := Insert(cmp, t, x);
      forall i | 0 <= i < |r| ensures Le(cmp, r[i], last) {
        assert r[i] in t + [x];
      }
    }
  }

  lemma {:induction false} InsertItems<T>(cmp: Compare<T>, s: seq<T>, x: T)
    ensures multiset(Insert(cmp, s, x)) == multiset(s) + multiset{x}
  {
    if s != [] && !Le(cmp, s[|s| - 1], x) {
      InsertItems(cmp, s[..|s| - 1], x);
      assert s == s[..|s| - 1] + [s[|s| - 1]];
    }
  }

  lemma {:induction false} ClassConcat<T>(cmp: Compare<T>, s: seq<T>, t: seq<T>, x: T)
    ensures Class(cmp, s + t, x) == Class(cmp, s, x) + Class(cmp, t, x)
  {
    if s == [] {
      assert s + t == t;
    } else {
      assert (s + t)[1..] == s[1..] + t;
      ClassConcat(cmp, s[1..], t, x);
      var first := if Le(cmp, s[0], x) && Le(cmp, x, s[0]) then [s[0]] else [];
      assert Class(cmp, s + t, x) == first + (Class(cmp, s[1..], x) + Class(cmp, t, x));
    }
  }

  /** Insertion puts the new element last in its class. */
  lemma {:induction false} InsertClass<T(!new)>(cmp: Compare<T>, s: seq<T>, e: T, x: T)
    requires TotalPreorder(cmp)
    ensures Class(cmp, Insert(cmp, s, e), x) == Class(cmp, s + [e], x)
  {
    if s != [] && !Le(cmp, s[|s| - 1], e) {
      var t, last := s[..|s| - 1], s[|s| - 1];
      InsertClass(cmp, t, e, x);
      ClassConcat(cmp, Insert(cmp, t, e), [last], x);
      ClassConcat(cmp, t, [e], x);
      ClassConcat(cmp, t, [last], x);
      ClassConcat(cmp, s, [e], x);
      assert s == t + [last];
      assert Class(cmp, [e], x) == [] || Class(cmp, [last], x) == [];
    }
  }

  /** The sort orders, permutes, and keeps equal elements in their order. */
  lemma {:induction false} SortIsStable<T(!new)>(cmp: Compare<T>, s: seq<T>)
    requires TotalPreorder(cmp)
    ensures Sorted(cmp, InsertionSort(cmp, s))
    ensures multiset(InsertionSort(cmp, s)) == multiset(s)
    ensures forall x :: Class(cmp, InsertionSort(cmp, s), x) == Class(cmp, s, x)
  {
    if s != [] {
      var t, last := s[..|s| - 1], s[|s| - 1];
      assert s == t + [last];
      SortIsStable(cmp, t);
      var r := InsertionSort(cmp, t);
      InsertSorted(cmp, r, last);
      InsertItems(cmp, r, last);
      forall x ensures Class(cmp, InsertionSort(cmp, s), x) == Class(cmp, s, x) {
        InsertClass(cmp, r, last, x);
        ClassConcat(cmp, r, [last], x);
        ClassConcat(cmp, t, [last], x);
      }
    }
  }

  /** Such a result is unique: two ordered sequences with the same classes are equal. */
  lemma {:induction false} StableSortIsUnique<T(!new)>(cmp: Compare<T>, s: seq<T>, t: seq<T>)
    requires TotalPreorder(cmp) && Sorted(cmp, s) && Sorted(cmp, t)
    requires forall x :: Class(cmp, s, x) == Class(cmp, t, x)
    ensures s == t
  {
    if s == [] {
      if t != [] { HeadInClass(cmp, t); }
    } else if t == [] {
      HeadInClass(cmp, s);
    } else {
      assert Class(cmp, s, s[0]) == [s[0]] + Class(cmp, s[1..], s[0]);
      assert Class(cmp, t, t[0]) == [t[0]] + Class(cmp, t[1..], t[0]);
      HeadOfClass(cmp, t, s[0]);
      HeadOfClass(cmp, s, t[0]);
      assert Class(cmp, t, s[0]) == [t[0]] + Class(cmp, t[1..], s[0]);
      assert s[0] == Class(cmp, s, s[0])[0] == t[0];
      forall x ensures Class(cmp, s[1..], x) == Class(cmp, t[1..], x) {
        var p := if Le(cmp, s[0], x) && Le(cmp, x, s[0]) then [s[0]] else [];
        assert Class(cmp, s, x) == p + Class(cmp, s[1..], x) && Class(cmp, t, x) == p + Class(cmp, t[1..], x);
        assert Class(cmp, s, x)[|p|..] == Class(cmp, s[1..], x);
      }
      StableSortIsUnique(cmp, s[1..], t[1..]);
    }
  }

  lemma HeadInClass<T(!new)>(cmp: Compare<T>, s: seq<T>)
    requires TotalPreorder(cmp) && s != []
    ensures Class(cmp, s, s[0]) != []
  {
  }

  lemma {:induction false} HeadOfClass<T(!new)>(cmp: Compare<T>, s: seq<T>, x: T)
    requires TotalPreorder(cmp) && Sorted(cmp, s) && Class(cmp, s, x) != []
    ensures s != [] && Le(cmp, s[0], x)
  {
    if !(Le(cmp, s[0], x) && Le(cmp, x, s[0])) {
      HeadOfClass(cmp, s[1..], x);
    }
  }

  // ---------- the code ----------

  lemma LastOff<T>(s: seq<T>, n: nat)
    requires 0 < n <= |s|
    ensures s[..n][..n - 1] == s[..n - 1] && s[..n - 1] + [s[n - 1]] == s[..n]
  {
  }

  lemma InsertLast<T>(cmp: Compare<T>, s: seq<T>, x: T)
    requires s != [] ==> Le(cmp, s[|s| - 1], x)
    ensures Insert(cmp, s, x) == s + [x]
  {
  }

  /** Nothing to do where the order holds already. */
  lemma {:induction false} SortedPrefix<T>(cmp: Compare<T>, s: seq<T>, n: nat)
    requires Sorted(cmp, s) && n <= |s|
    ensures InsertionSort(cmp, s[..n]) == s[..n]
  {
    if n > 0 {
      SortedPrefix(cmp, s, n - 1);
      LastOff(s, n);
      assert n > 1 ==> Le(cmp, s[n - 2], s[n - 1]);
      InsertLast(cmp, s[..n - 1], s[n - 1]);
    }
  }

  /** An insertion goes behind the last item that is not greater. */
  lemma {:induction false} InsertPlace<T>(cmp: Compare<T>, prefix: seq<T>, next: nat, x: T)
    requires next <= |prefix| && (next > 0 ==> cmp(prefix[next - 1], x) <= 0)
    requires forall k :: next <= k < |prefix| ==> cmp(prefix[k], x) > 0
    ensures Insert(cmp, prefix, x) == prefix[..next] + [x] + prefix[next..]
  {
    var n := |prefix|;
    if next < n {
      var shorter := prefix[..n - 1];
      assert shorter[..next] == prefix[..next];
      InsertPlace(cmp, shorter, next, x);
      assert shorter[next..] + [prefix[n - 1]] == prefix[next..];
    }
  }

  /** The items of `prefix` from `next` on moved one cell to the right, over cell i. */
  ghost predicate Shifted<T>(r: seq<Cell<T>>, cells: seq<Cell<T>>, prefix: seq<T>, next: nat) {
    next <= |prefix| < |cells| == |r| &&
    (forall k :: 0 <= k < next ==> r[k] == Item(prefix[k])) &&
    (forall k :: next < k <= |prefix| ==> r[k] == Item(prefix[k - 1])) &&
    (forall k :: |prefix| < k < |r| ==> r[k] == cells[k])
  }

  lemma ShiftOne<T>(r: seq<Cell<T>>, cells: seq<Cell<T>>, prefix: seq<T>, next: nat)
    requires Shifted(r, cells, prefix, next) && next > 0
    ensures Shifted(r[next := r[next - 1]], cells, prefix, next - 1)
  {
  }

  lemma ShiftDone<T>(r: seq<Cell<T>>, cells: seq<Cell<T>>, prefix: seq<T>, next: nat, x: T)
    requires Shifted(r, cells, prefix, next)
    ensures r[next := Item(x)][..|prefix| + 1] == Cells(prefix[..next] + [x] + prefix[next..])
    ensures r[next := Item(x)][|prefix| + 1..] == cells[|prefix| + 1..]
  {
  }

  /** The inner loop: the item at i moves left past every greater one.  The cells before i
      hold the items of `prefix`. */
  method ShiftInsert<T>(cells: seq<Cell<T>>, i: nat, cmp: Compare<T>, ghost prefix: seq<T>) returns (r: seq<Cell<T>>)
    requires 0 < i < |cells| && |prefix| == i && cells[..i] == Cells(prefix) && cells[i].Item?
    requires cmp(prefix[i - 1], cells[i].value) > 0
    ensures |r| == |cells| && r[i + 1..] == cells[i + 1..]
    ensures r[..i + 1] == Cells(Insert(cmp, prefix, cells[i].value))
  {
    var temp := cells[i];
    assert forall k :: 0 <= k < i ==> cells[k] == cells[..i][k] == Item(prefix[k]);
    ShiftOne(cells, cells, prefix, i);
    r := cells[i := cells[i - 1]];
    var j, next := i - 2, i - 1;
    while j >= 0 && cmp(r[j].value, temp.value) > 0
      invariant -1 <= j < i - 1 && next == j + 1 && Shifted(r, cells, prefix, next)
      invariant forall k :: next <= k < i ==> cmp(prefix[k], temp.value) > 0
    {
      ShiftOne(r, cells, prefix, next);
      r := r[next := r[j]];
      next, j := j, j - 1;
    }
    ShiftDone(r, cells, prefix, next, temp.value);
    InsertPlace(cmp, prefix, next, temp.value);
    r := r[next := temp];
  }

  /** The cells when the first i items are sorted and the others still to come. */
  ghost function Partly<T>(cmp: Compare<T>, items: seq<T>, i: nat): (r: seq<Cell<T>>)
    requires i <= |items|
    ensures |r| == |items|
  {
    Cells(InsertionSort(cmp, items[..i]) + items[i..])
  }

  lemma {:induction false} PartlyParts<T>(cmp: Compare<T>, items: seq<T>, i: nat)
    requires i < |items|
    ensures Partly(cmp, items, i)[..i] == Cells(InsertionSort(cmp, items[..i]))
    ensures Partly(cmp, items, i)[i] == Item(items[i])
    ensures Partly(cmp, items, i + 1)[..i + 1] == Cells(Insert(cmp, InsertionSort(cmp, items[..i]), items[i]))
    ensures Partly(cmp, items, i + 1)[i + 1..] == Partly(cmp, items, i)[i + 1..]
  {
    assert items[..i + 1][..i] == items[..i];
  }

  /** A round that finds its pair in order has nothing to move. */
  lemma {:induction false} RoundInOrder<T>(cmp: Compare<T>, items: seq<T>, i: nat)
    requires 0 < i < |items| && Le(cmp, InsertionSort(cmp, items[..i])[i - 1], items[i])
    ensures Partly(cmp, items, i + 1) == Partly(cmp, items, i)
  {
    var prefix := InsertionSort(cmp, items[..i]);
    assert items[..i + 1][..i] == items[..i];
    assert InsertionSort(cmp, items[..i + 1]) == prefix + [items[i]];
    assert prefix + [items[i]] + items[i + 1..] == prefix + items[i..];
  }

  /** A round that finds its pair out of order, in a buffer of the vector's own. */
  method RoundOutOfOrder<T(!new)>(v: VectorImpl<T>, cmp: Compare<T>, i: nat, ghost items: seq<T>,
                                  ghost fam: set<VectorImpl<T>>)
    requires v in fam && Family(fam, v.itemSize) && v.storage != null && v.storage.refs == 1
    requires 0 < i < |items| && v.Contents() == Partly(cmp, items, i)
    requires v.storage.data[i - 1].Item? && cmp(v.storage.data[i - 1].value, items[i]) > 0
    modifies v`count, v.storage`data
    ensures Family(fam, v.itemSize) && v.OthersKept(fam) && v.Contents() == Partly(cmp, items, i + 1)
  {
    assert MemberOk(fam, v, v.itemSize);
    PartlyParts(cmp, items, i);
    assert v.storage.data[..v.count][..i] == v.storage.data[..i];
    var sorted := ShiftInsert(v.storage.data, i, cmp, InsertionSort(cmp, items[..i]));
    Recombine(sorted, v.storage.data, v.count, i, Partly(cmp, items, i), Partly(cmp, items, i + 1));
    v.WriteOwn(sorted, v.count, fam);
  }

  /** The first exchange: a buffer of the vector's own, and room for one item aside. */
  method BeginEdit<T>(v: VectorImpl<T>, mem: Memory, ghost fam: set<VectorImpl<T>>) returns (r: Status)
    requires v in fam && Family(fam, v.itemSize) && v.storage != null
    modifies v, v.storage
    ensures Family(fam, v.itemSize) && v.OthersKept(fam)
    ensures v.Contents() == old(v.Contents()) && v.count == old(v.count)
    ensures r.Done? <==> mem.allocOk
    ensures v.storage != null && (r.Done? ==> v.storage.refs == 1)
    ensures v.storage != old(v.storage) ==> fresh(v.storage)
    ensures v.storage == old(v.storage) ==> v.storage.refs == old(v.storage.refs)
  {
    var ok;
    ghost var moved;
    ok, moved := v.EditArray(mem, fam);
    r := if !ok then Aborted else if !mem.allocOk then NoMemory else Done(0);
  }

  lemma {:induction false} OrderedRound<T>(cmp: Compare<T>, items: seq<T>, i: nat)
    requires 0 < i < |items|
    ensures Sorted(cmp, items) ==> Le(cmp, InsertionSort(cmp, items[..i])[i - 1], items[i])
  {
    if Sorted(cmp, items) { SortedPrefix(cmp, items, i); }
  }

  /** The pair that round i looks at, compared in the buffer. */
  predicate OutOfOrder<T>(v: VectorImpl<T>, cmp: Compare<T>, i: nat, ghost items: seq<T>)
    requires 0 < i < |items| && v.storage != null && v.Contents() == Partly(cmp, items, i)
    reads v, v.storage
    ensures OutOfOrder(v, cmp, i, items) <==> !Le(cmp, InsertionSort(cmp, items[..i])[i - 1], items[i])
    ensures v.storage.data[i - 1] == Item(InsertionSort(cmp, items[..i])[i - 1])
  {
    PartlyParts(cmp, items, i);
    assert v.storage.data[i - 1] == v.Contents()[..i][i - 1] && v.storage.data[i] == v.Contents()[i];
    cmp(v.storage.data[i - 1].value, v.storage.data[i].value) > 0
  }

  /** One round of the outer loop that finds its pair out of order. */
  method Exchange<T(!new)>(v: VectorImpl<T>, cmp: Compare<T>, i: nat, edited: bool, mem: Memory,
                           ghost items: seq<T>, ghost fam: set<VectorImpl<T>>)
    returns (r: Status)
    requires v in fam && Family(fam, v.itemSize) && v.storage != null
    requires 0 < i < |items| && v.Contents() == Partly(cmp, items, i) && (edited ==> v.storage.refs == 1)
    requires OutOfOrder(v, cmp, i, items)
    modifies v, v.storage
    ensures Family(fam, v.itemSize) && v.OthersKept(fam) && v.storage != null
    ensures r.Done? ==> v.Contents() == Partly(cmp, items, i + 1) && v.storage.refs == 1
    ensures !r.Done? ==> !edited && !mem.allocOk && v.Contents() == old(v.Contents())
    ensures v.storage != old(v.storage) ==> fresh(v.storage)
    ensures v.storage == old(v.storage) ==> v.storage.refs == old(v.storage.refs)
  {
    r := Done(0);
    if !edited {
      r := BeginEdit(v, mem, fam);
      if !r.Done? { return; }
    }
    assert OutOfOrder(v, cmp, i, items);
    RoundOutOfOrder(v, cmp, i, items, fam);
  }

  /** One round of the outer loop. */
  method SortRound<T(!new)>(v: VectorImpl<T>, cmp: Compare<T>, i: nat, edited: bool, mem: Memory,
                            ghost items: seq<T>, ghost fam: set<VectorImpl<T>>)
    returns (r: Status, edited': bool)
    requires v in fam && Family(fam, v.itemSize) && v.storage != null
    requires 0 < i < |items| && v.Contents() == Partly(cmp, items, i) && (edited ==> v.storage.refs == 1)
    modifies v, v.storage
    ensures Family(fam, v.itemSize) && v.OthersKept(fam) && v.storage != null
    ensures r.Done? ==> v.Contents() == Partly(cmp, items, i + 1) && (edited' ==> v.storage.refs == 1)
    ensures !r.Done? ==> !edited && edited' && !mem.allocOk && v.Contents() == old(v.Contents())
    ensures v.storage != old(v.storage) ==> fresh(v.storage)
    ensures v.storage == old(v.storage) ==> v.storage.refs == old(v.storage.refs)
    ensures edited' <==> edited || !Le(cmp, InsertionSort(cmp, items[..i])[i - 1], items[i])
    ensures !edited' ==> v.storage == old(v.storage) && v.Contents() == old(v.Contents())
  {
    if OutOfOrder(v, cmp, i, items) {
      r := Exchange(v, cmp, i, edited, mem, items, fam);
      edited' := true;
    } else {
      RoundInOrder(cmp, items, i);
      r, edited' := Done(0), edited;
    }
  }

  /** VectorImpl::sort of a vector that holds `items`.  The buffer is unshared at the first
      pair found out of order, not before; a sorted vector keeps sharing it. */
  method Sort<T(!new)>(v: VectorImpl<T>, cmp: Compare<T>, mem: Memory, ghost items: seq<T>,
                       ghost fam: set<VectorImpl<T>>)
    returns (r: Status)
    requires v in fam && Family(fam, v.itemSize) && v.Contents() == Cells(items)
    modifies v, v.storage
    ensures Family(fam, v.itemSize) && v.OthersKept(fam)
    ensures r.Done? ==> v.Contents() == Cells(InsertionSort(cmp, items))
    ensures !r.Done? ==> !mem.allocOk && v.Contents() == Cells(items)
    ensures Sorted(cmp, items) ==> r.Done? && v.storage == old(v.storage)
    ensures v.storage == old(v.storage) && v.storage != null ==> v.storage.refs == old(v.storage.refs)
  {
    assert MemberOk(fam, v, v.itemSize);
    r := Done(0);
    if v.count > 1 {
      FirstRound(cmp, items);
      var i, edited := 1, false;
      while i < v.count
        invariant 1 <= i <= |items| == v.count && r.Done? && Family(fam, v.itemSize) && v.OthersKept(fam)
        invariant v.storage != null && v.Contents() == Partly(cmp, items, i) && (edited ==> v.storage.refs == 1)
        invariant v.storage != old(v.storage) ==> fresh(v.storage)
        invariant v.storage == old(v.storage) ==> v.storage.refs == old(v.storage.refs)
        invariant edited ==> !Sorted(cmp, items)
        invariant !edited ==> v.storage == old(v.storage) && v.Contents() == Cells(items)
      {
        OrderedRound(cmp, items, i);
        r, edited := SortRound(v, cmp, i, edited, mem, items, fam);
        if !r.Done? { return; }
        assert MemberOk(fam, v, v.itemSize);
        i := i + 1;
      }
    } else {
      SortedPrefix(cmp, items, |items|);
      assert items[..|items|] == items;
    }
  }

  lemma {:induction false} FirstRound<T>(cmp: Compare<T>, items: seq<T>)
    requires items != []
    ensures Partly(cmp, items, 1) == Cells(items)
    ensures Partly(cmp, items, |items|) == Cells(InsertionSort(cmp, items))
  {
    LastOff(items, 1);
    InsertLast(cmp, items[..0], items[0]);
    assert items[..1] + items[1..] == items;
    assert items[..|items|] == items && items[|items|..] == [];
  }

  lemma Recombine<T>(r: seq<Cell<T>>, data: seq<Cell<T>>, count: nat, i: nat, before: seq<Cell<T>>, after: seq<Cell<T>>)
    requires i < count <= |data| == |r| && |after| == count && data[..count] == before
    requires r[..i + 1] == after[..i + 1] && r[i + 1..] == data[i + 1..] && after[i + 1..] == before[i + 1..]
    ensures r[..count] == after
  {
    forall k | 0 <= k < count ensures r[k] == after[k] {
      if k <= i {
        assert r[k] == r[..i + 1][k] == after[..i + 1][k];
      } else {
        assert r[k] == r[i + 1..][k - i - 1] == data[i + 1..][k - i - 1] == before[k] == before[i + 1..][k - i - 1];
        assert after[k] == after[i + 1..][k - i - 1];
      }
    }
  }
}
