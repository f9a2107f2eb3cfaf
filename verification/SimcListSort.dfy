/** `list_sort`: a selection sort for short sublists and a quicksort whose random pivot moves while the
    sublist is partitioned. Only the data of the nodes moves; the links and the middle pointer stay. */
module SimcListSort {
  import opened SimcList

  const MIN_QUICKSORT: nat := 24

  datatype Comparator<!T> = NoComparator | Comparator(compare: (T, T) -> int)

  // ---------- comparators ----------

  /** A total preorder, given by signs. */
  ghost predicate Compares<T(!new)>(c: (T, T) -> int) {
    && (forall x, y :: c(x, y) <= 0 <==> c(y, x) >= 0)
    && (forall x, y, z :: c(x, y) <= 0 && c(y, z) <= 0 ==> c(x, z) <= 0)
  }

  /** What the sort compares with: the user's comparator times `-versus`. */
  function Directed<T>(c: (T, T) -> int, versus: int): (T, T) -> int { (x, y) => c(x, y) * -versus }

  lemma ProductSign(a: int, k: int)
    ensures k > 0 ==> (a * k <= 0 <==> a <= 0) && (a * k >= 0 <==> a >= 0)
    ensures k < 0 ==> (a * k <= 0 <==> a >= 0) && (a * k >= 0 <==> a <= 0)
  {
  }

  lemma DirectedCompares<T(!new)>(c: (T, T) -> int, versus: int)
    requires Compares(c)
    ensures Compares(Directed(c, versus))
  {
    var d := Directed(c, versus);
    forall x, y ensures d(x, y) <= 0 <==> d(y, x) >= 0 {
      ProductSign(c(x, y), -versus);
      ProductSign(c(y, x), -versus);
    }
    forall x, y, z | d(x, y) <= 0 && d(y, z) <= 0 ensures d(x, z) <= 0 {
      ProductSign(c(x, y), -versus);
      ProductSign(c(y, z), -versus);
      ProductSign(c(x, z), -versus);
    }
  }

  // ---------- sequences ----------

  ghost predicate Sorted<T>(c: (T, T) -> int, e: seq<T>, lo: nat, hi: nat)
    requires lo <= hi <= |e|
  {
    forall i, j | lo <= i < j < hi :: c(e[i], e[j]) <= 0
  }

  /** Everything in a range comes no later than v. */
  ghost predicate Before<T>(c: (T, T) -> int, e: seq<T>, lo: nat, hi: nat, v: T)
    requires lo <= hi <= |e|
  {
    forall i | lo <= i < hi :: c(e[i], v) <= 0
  }

  ghost predicate After<T>(c: (T, T) -> int, e: seq<T>, lo: nat, hi: nat, v: T)
    requires lo <= hi <= |e|
  {
    forall i | lo <= i < hi :: c(e[i], v) >= 0
  }

  /** b rearranges a inside a range and agrees with it outside. */
  ghost predicate Permuted<T>(a: seq<T>, b: seq<T>, lo: nat, hi: nat) {
    && |a| == |b| && lo <= hi <= |a|
    && a[..lo] == b[..lo] && a[hi..] == b[hi..]
    && multiset(a[lo..hi]) == multiset(b[lo..hi])
  }

  lemma SwapPermutes<T>(a: seq<T>, i: nat, j: nat, lo: nat, hi: nat)
    requires lo <= i < hi <= |a| && lo <= j < hi
    ensures Permuted(a, a[i := a[j]][j := a[i]], lo, hi)
  {
    var b := a[i := a[j]][j := a[i]];
    var s := a[lo..hi];
    assert b[lo..hi] == s[i - lo := s[j - lo]][j - lo := s[i - lo]];
  }

  lemma Widen<T>(a: seq<T>, b: seq<T>, lo: nat, hi: nat, lo': nat, hi': nat)
    requires Permuted(a, b, lo, hi) && lo' <= lo && hi <= hi' <= |a|
    ensures Permuted(a, b, lo', hi')
  {
    assert a[lo'..hi'] == a[..lo][lo'..] + a[lo..hi] + a[hi..][..hi' - hi];
    assert b[lo'..hi'] == b[..lo][lo'..] + b[lo..hi] + b[hi..][..hi' - hi];
    assert a[..lo'] == a[..lo][..lo'] && b[..lo'] == b[..lo][..lo'];
    assert a[hi'..] == a[hi..][hi' - hi..] && b[hi'..] == b[hi..][hi' - hi..];
  }

  lemma Outside<T>(a: seq<T>, b: seq<T>, lo: nat, hi: nat, k: nat)
    requires Permuted(a, b, lo, hi) && k < |a| && !(lo <= k < hi)
    ensures a[k] == b[k]
  {
    if k < lo { assert a[..lo][k] == b[..lo][k]; } else { assert a[hi..][k - hi] == b[hi..][k - hi]; }
  }

  lemma BeforeStays<T>(c: (T, T) -> int, a: seq<T>, b: seq<T>, lo: nat, hi: nat, v: T)
    requires Permuted(a, b, lo, hi)
    ensures Before(c, a, lo, hi, v) ==> Before(c, b, lo, hi, v)
    ensures After(c, a, lo, hi, v) ==> After(c, b, lo, hi, v)
  {
    forall k | lo <= k < hi ensures exists i :: lo <= i < hi && a[i] == b[k] {
      assert b[lo..hi][k - lo] in multiset(a[lo..hi]);
      assert b[k] in a[lo..hi];
      var i :| 0 <= i < hi - lo && a[lo..hi][i] == b[k];
      assert a[lo + i] == b[k];
    }
  }

  /** Sorted parts around a pivot make a sorted whole. */
  lemma Glue<T(!new)>(c: (T, T) -> int, e: seq<T>, lo: nat, p: nat, hi: nat)
    requires Compares(c) && lo <= p < hi <= |e|
    requires Sorted(c, e, lo, p) && Sorted(c, e, p + 1, hi)
    requires Before(c, e, lo, p, e[p]) && After(c, e, p + 1, hi, e[p])
    ensures Sorted(c, e, lo, hi)
  {
    forall i, j | lo <= i < j < hi ensures c(e[i], e[j]) <= 0 {
      if i < p && j > p { assert c(e[i], e[p]) <= 0 && c(e[p], e[j]) <= 0; }
    }
  }

  /** Three elements change places in a ring: m goes to i, p goes to m, i goes to p. */
  ghost function Turned<T>(e: seq<T>, i: nat, m: nat, p: nat): (f: seq<T>)
    requires i < |e| && m < |e| && p < |e| && i != p && m != p
    ensures |f| == |e| && f[p] == e[i] && f[m] == e[p]
    ensures forall k {:trigger f[k]} | 0 <= k < |e| && k != p && k != m && k != i :: f[k] == e[k]
  {
    e[i := e[m]][m := e[p]][p := e[i]]
  }

  lemma RingPermutes<T>(e: seq<T>, i: nat, m: nat, p: nat, lo: nat, hi: nat)
    requires lo <= i < hi <= |e| && lo <= m < hi && lo <= p < hi && i != p && m != p
    ensures Permuted(e, Turned(e, i, m, p), lo, hi)
  {
    SwapPermutes(e, i, m, lo, hi);
    var f := e[i := e[m]][m := e[i]];
    SwapPermutes(f, m, p, lo, hi);
    assert f[m := f[p]][p := f[m]] == Turned(e, i, m, p);
  }

  // ---------- the moves on nodes ----------

  /** The node of a position, and its neighbours. */
  lemma At<T(0)>(l: List<T>, k: nat)
    requires l.Valid() && k < l.numels
    ensures |l.spine| == l.numels + 2 && |l.Elements()| == l.numels
    ensures l.spine[k + 1].data == l.Elements()[k]
    ensures l.spine[k + 1].next == l.spine[k + 2] && l.spine[k + 1].prev == l.spine[k]
  {
  }

  lemma Same<T(0)>(l: List<T>, j: nat, k: nat)
    requires l.Valid() && j <= l.numels && k <= l.numels
    ensures |l.spine| == l.numels + 2 && (l.spine[j + 1] == l.spine[k + 1] <==> j == k)
  {
  }

  method Store<T(0)>(l: List<T>, x: Node<T>, data: T, ghost i: nat)
    requires l.Valid() && i < l.numels && x == l.spine[i + 1]
    modifies x`data
    ensures l.Valid() && l.Elements() == old(l.Elements())[i := data]
  {
    At(l, i);
    x.data := data;
  }

  method Swap<T(0)>(l: List<T>, x: Node<T>, y: Node<T>, ghost i: nat, ghost j: nat)
    requires l.Valid() && i < l.numels && j < l.numels && x == l.spine[i + 1] && y == l.spine[j + 1]
    modifies x`data, y`data
    ensures l.Valid() && l.Elements() == old(l.Elements())[i := old(l.Elements()[j])][j := old(l.Elements()[i])]
  {
    At(l, i);
    At(l, j);
    hide *;
    var tmpdata := x.data;
    Store(l, x, y.data, i);
    Store(l, y, tmpdata, j);
  }

  method Ring<T(0)>(l: List<T>, x: Node<T>, beside: Node<T>, pivot: Node<T>, ghost i: nat, ghost m: nat, ghost p: nat)
    requires l.Valid() && i < l.numels && m < l.numels && p < l.numels && i != p && m != p
    requires x == l.spine[i + 1] && beside == l.spine[m + 1] && pivot == l.spine[p + 1]
    modifies x`data, beside`data, pivot`data
    ensures l.Valid()
    ensures l.Elements() == Turned(old(l.Elements()), i, m, p)
  {
    hide List.Valid, List.Elements, List.Data;
    At(l, i);
    At(l, m);
    At(l, p);
    var tmpdata := x.data;
    Store(l, x, beside.data, i);
    At(l, p);
    Store(l, beside, pivot.data, m);
    Store(l, pivot, tmpdata, p);
  }

  // ---------- selection sort ----------

  /** The first i - lo elements are the least of the range, in order. */
  ghost predicate Selected<T>(c: (T, T) -> int, e0: seq<T>, e: seq<T>, lo: nat, i: nat, hi: nat) {
    && lo <= i < hi <= |e| && Permuted(e0, e, lo, hi) && Sorted(c, e, lo, i)
    && (i > lo ==> After(c, e, i, hi, e[i - 1]))
  }

  lemma SelectStep<T(!new)>(c: (T, T) -> int, e0: seq<T>, e: seq<T>, lo: nat, i: nat, m: nat, hi: nat)
    requires Compares(c) && Selected(c, e0, e, lo, i, hi) && i <= m && i + 1 < hi && m < hi && After(c, e, i, hi, e[m])
    ensures Selected(c, e0, e[i := e[m]][m := e[i]], lo, i + 1, hi)
  {
    var f := e[i := e[m]][m := e[i]];
    SwapPermutes(e, i, m, lo, hi);
    forall a, b | lo <= a < b < i + 1 ensures c(f[a], f[b]) <= 0 {
      assert f[a] == e[a];
      if b == i {
        assert f[b] == e[m] && c(e[m], e[i - 1]) >= 0;
        assert a < i - 1 ==> c(e[a], e[i - 1]) <= 0;
        assert c(e[i - 1], e[m]) <= 0;
      } else {
        assert f[b] == e[b];
      }
    }
    forall k | i + 1 <= k < hi ensures c(f[k], f[i]) >= 0 {
      assert f[k] == if k == m then e[i] else e[k];
    }
  }

  lemma SelectedNone<T(!new)>(c: (T, T) -> int, e: seq<T>, lo: nat, hi: nat)
    requires lo < hi <= |e|
    ensures Selected(c, e, e, lo, lo, hi)
  {
  }

  lemma SelectedAll<T(!new)>(c: (T, T) -> int, e0: seq<T>, e: seq<T>, lo: nat, hi: nat)
    requires Compares(c) && hi > 0 && Selected(c, e0, e, lo, hi - 1, hi)
    ensures Permuted(e0, e, lo, hi) && Sorted(c, e, lo, hi)
  {
    forall a, b | lo <= a < b < hi ensures c(e[a], e[b]) <= 0 {
      if b == hi - 1 {
        assert c(e[b], e[b - 1]) >= 0;
        assert a < b - 1 ==> c(e[a], e[b - 1]) <= 0;
      }
    }
  }

  /** The inner loop: a least element of the rest of the sublist. */
  method FindLeast<T(0,!new)>(l: List<T>, c: (T, T) -> int, from: Node<T>, lel: Node<T>, ghost i: nat, ghost last: nat)
    returns (toSwap: Node<T>, ghost m: nat)
    requires l.Valid() && Compares(c) && i <= last < l.numels && from == l.spine[i + 1] && lel == l.spine[last + 1]
    ensures i <= m <= last && toSwap == l.spine[m + 1] && After(c, l.Elements(), i, last + 1, l.Elements()[m])
  {
    hide *;
    At(l, i);
    At(l, last);
    ghost var e := l.Elements();
    toSwap, m := from, i;
    var cursor := from.next;
    ghost var j := i + 1;
    AfterOne(c, e, i);
    while cursor != lel.next
      invariant i <= m < j <= last + 1 && cursor == l.spine[j + 1] && toSwap == l.spine[m + 1]
      invariant After(c, e, i, j, e[m])
      decreases last + 1 - j
    {
      At(l, j);
      At(l, m);
      AfterStep(c, e, i, j, m);
      if c(toSwap.data, cursor.data) > 0 { toSwap, m := cursor, j; }
      cursor, j := cursor.next, j + 1;
    }
    Same(l, j, last + 1);
  }

  lemma AfterOne<T(!new)>(c: (T, T) -> int, e: seq<T>, i: nat)
    requires Compares(c) && i < |e|
    ensures After(c, e, i, i + 1, e[i])
  {
    var x := e[i];
    assert c(x, x) <= 0 <==> c(x, x) >= 0;
  }

  lemma AfterStep<T(!new)>(c: (T, T) -> int, e: seq<T>, lo: nat, j: nat, m: nat)
    requires Compares(c) && lo <= m < j < |e| && After(c, e, lo, j, e[m])
    ensures After(c, e, lo, j + 1, e[if c(e[m], e[j]) > 0 then j else m])
  {
    if c(e[m], e[j]) > 0 {
      forall k | lo <= k < j + 1 ensures c(e[k], e[j]) >= 0 {
        if k < j { assert c(e[m], e[k]) <= 0 && c(e[j], e[m]) <= 0; }
      }
    }
  }

  /** One turn of the outer loop. */
  method SelectOne<T(0,!new)>(l: List<T>, c: (T, T) -> int, from: Node<T>, lel: Node<T>, ghost e0: seq<T>,
                              ghost first: nat, ghost i: nat, ghost last: nat)
    requires l.Valid() && Compares(c) && i < last < l.numels && from == l.spine[i + 1] && lel == l.spine[last + 1]
    requires Selected(c, e0, l.Elements(), first, i, last + 1)
    modifies l.spine`data
    ensures l.Valid() && Selected(c, e0, l.Elements(), first, i + 1, last + 1)
  {
    hide *;
    ghost var e := l.Elements();
    var toSwap, m := FindLeast(l, c, from, lel, i, last);
    SelectStep(c, e0, e, first, i, m, last + 1);
    Same(l, m, i);
    if toSwap != from {
      Swap(l, from, toSwap, i, m);
    } else {
      assert e[i := e[m]][m := e[i]] == e;
    }
  }

  /** `list_sort_selectionsort` */
  method SelectionSort<T(0,!new)>(l: List<T>, c: (T, T) -> int, first: nat, fel: Node<T>, last: nat, lel: Node<T>)
    requires l.Valid() && Compares(c) && first <= last < l.numels
    requires fel == l.spine[first + 1] && lel == l.spine[last + 1]
    modifies l.spine`data
    ensures l.Valid()
    ensures Permuted(old(l.Elements()), l.Elements(), first, last + 1) && Sorted(c, l.Elements(), first, last + 1)
  {
    hide *;
    At(l, last);
    ghost var e0 := l.Elements();
    SelectedNone(c, e0, first, last + 1);
    if last <= first { SelectedAll(c, e0, e0, first, last + 1); return; }
    var firstUnsorted := fel;
    ghost var i := first;
    while firstUnsorted != lel
      invariant l.Valid() && first <= i <= last && firstUnsorted == l.spine[i + 1]
      invariant Selected(c, e0, l.Elements(), first, i, last + 1)
      decreases last - i
    {
      SelectOne(l, c, firstUnsorted, lel, e0, first, i, last);
      At(l, i);
      firstUnsorted, i := firstUnsorted.next, i + 1;
    }
    Same(l, i, last);
    SelectedAll(c, e0, l.Elements(), first, last + 1);
  }

  // ---------- quicksort ----------

  /** Around the pivot at p: what lies left of l comes before it, what lies right of r comes after it. */
  ghost predicate Parted<T>(c: (T, T) -> int, e0: seq<T>, e: seq<T>, lo: nat, hi: nat, l: nat, p: nat, r: nat) {
    && lo <= l <= p <= r < hi <= |e| && Permuted(e0, e, lo, hi)
    && Before(c, e, lo, l, e[p]) && After(c, e, r + 1, hi, e[p])
  }

  lemma PartedStart<T>(c: (T, T) -> int, e: seq<T>, lo: nat, hi: nat, p: nat)
    requires lo <= p < hi <= |e|
    ensures Parted(c, e, e, lo, hi, lo, p, hi - 1)
  {
  }

  lemma PartedSkip<T>(c: (T, T) -> int, e0: seq<T>, e: seq<T>, lo: nat, hi: nat, l: nat, p: nat, r: nat)
    requires Parted(c, e0, e, lo, hi, l, p, r)
    ensures l < p && c(e[l], e[p]) <= 0 ==> Parted(c, e0, e, lo, hi, l + 1, p, r)
    ensures r > p && c(e[r], e[p]) >= 0 ==> Parted(c, e0, e, lo, hi, l, p, r - 1)
  {
  }

  lemma PartedSwap<T>(c: (T, T) -> int, e0: seq<T>, e: seq<T>, lo: nat, hi: nat, l: nat, p: nat, r: nat)
    requires Parted(c, e0, e, lo, hi, l, p, r) && l < p < r && c(e[l], e[p]) > 0 && c(e[r], e[p]) < 0
    ensures Parted(c, e0, e[l := e[r]][r := e[l]], lo, hi, l + 1, p, r - 1)
  {
    SwapPermutes(e, l, r, lo, hi);
  }

  /** The pivot moves one to the left, past an element that belongs behind it. */
  lemma PartedLeft<T>(c: (T, T) -> int, e0: seq<T>, e: seq<T>, lo: nat, hi: nat, l: nat, p: nat)
    requires Parted(c, e0, e, lo, hi, l, p, p) && l < p && c(e[l], e[p]) > 0
    ensures Parted(c, e0, Turned(e, l, p - 1, p), lo, hi, l, p - 1, p - 1)
  {
    hide Permuted, Turned;
    RingPermutes(e, l, p - 1, p, lo, hi);
    var f := Turned(e, l, p - 1, p);
    PermutedTwice(e0, e, f, lo, hi);
    forall k | lo <= k < l ensures c(f[k], f[p - 1]) <= 0 {
      assert f[k] == e[k];
    }
    forall k | p - 1 + 1 <= k < hi ensures c(f[k], f[p - 1]) >= 0 {
      if k > p { assert f[k] == e[k]; }
    }
  }

  lemma PartedRight<T>(c: (T, T) -> int, e0: seq<T>, e: seq<T>, lo: nat, hi: nat, p: nat, r: nat)
    requires Parted(c, e0, e, lo, hi, p, p, r) && p < r && c(e[r], e[p]) < 0
    ensures Parted(c, e0, Turned(e, r, p + 1, p), lo, hi, p + 1, p + 1, r)
  {
    hide Permuted, Turned;
    RingPermutes(e, r, p + 1, p, lo, hi);
    var f := Turned(e, r, p + 1, p);
    PermutedTwice(e0, e, f, lo, hi);
    forall k | lo <= k < p + 1 ensures c(f[k], f[p + 1]) <= 0 {
      if k < p { assert f[k] == e[k]; }
    }
    forall k | r + 1 <= k < hi ensures c(f[k], f[p + 1]) >= 0 {
      assert f[k] == e[k];
    }
  }

  lemma PartedBounds<T>(c: (T, T) -> int, e0: seq<T>, e: seq<T>, lo: nat, hi: nat, l: nat, p: nat, r: nat)
    requires Parted(c, e0, e, lo, hi, l, p, r)
    ensures lo <= l <= p <= r < hi <= |e|
  {
  }

  /** Walks to a random pivot from the nearer end. */
  method PickPivot<T(0)>(l: List<T>, first: nat, fel: Node<T>, last: nat, lel: Node<T>)
    returns (pivot: Node<T>, pivotid: nat)
    requires l.Valid() && first <= last < l.numels && fel == l.spine[first + 1] && lel == l.spine[last + 1]
    ensures pivotid <= last - first && pivot == l.spine[first + pivotid + 1]
  {
    hide *;
    At(l, last);
    pivotid :| 0 <= pivotid < last - first + 1;
    if pivotid < (last - first + 1) / 2 {
      pivot := fel;
      for i := 0 to pivotid
        invariant pivot == l.spine[first + i + 1]
      {
        At(l, first + i);
        pivot := pivot.next;
      }
    } else {
      var i := last - first;
      pivot := lel;
      while i > pivotid
        invariant pivotid <= i <= last - first && pivot == l.spine[first + i + 1]
      {
        At(l, first + i);
        pivot, i := pivot.prev, i - 1;
      }
    }
  }

  method SkipLeft<T(0,!new)>(l: List<T>, c: (T, T) -> int, from: Node<T>, pivot: Node<T>, ghost e0: seq<T>,
                             ghost lo: nat, ghost hi: nat, ghost a: nat, ghost p: nat, ghost b: nat)
    returns (left: Node<T>, ghost a': nat)
    requires l.Valid() && hi <= l.numels && Parted(c, e0, l.Elements(), lo, hi, a, p, b)
    requires p < l.numels && a <= p && from == l.spine[a + 1] && pivot == l.spine[p + 1]
    ensures a <= a' <= p && left == l.spine[a' + 1] && Parted(c, e0, l.Elements(), lo, hi, a', p, b)
    ensures |l.Elements()| == l.numels && (a' < p ==> c(l.Elements()[a'], l.Elements()[p]) > 0)
  {
    hide *;
    At(l, p);
    left, a' := from, a;
    while left != pivot && c(left.data, pivot.data) <= 0
      invariant a <= a' <= p && left == l.spine[a' + 1] && Parted(c, e0, l.Elements(), lo, hi, a', p, b)
      decreases p - a'
    {
      At(l, a');
      Same(l, a', p);
      PartedSkip(c, e0, l.Elements(), lo, hi, a', p, b);
      left, a' := left.next, a' + 1;
    }
    At(l, a');
    Same(l, a', p);
  }

  method SkipRight<T(0,!new)>(l: List<T>, c: (T, T) -> int, from: Node<T>, pivot: Node<T>, ghost e0: seq<T>,
                              ghost lo: nat, ghost hi: nat, ghost a: nat, ghost p: nat, ghost b: nat)
    returns (right: Node<T>, ghost b': nat)
    requires l.Valid() && hi <= l.numels && Parted(c, e0, l.Elements(), lo, hi, a, p, b)
    requires p <= b < l.numels && from == l.spine[b + 1] && pivot == l.spine[p + 1]
    ensures p <= b' <= b && right == l.spine[b' + 1] && Parted(c, e0, l.Elements(), lo, hi, a, p, b')
    ensures |l.Elements()| == l.numels && (p < b' ==> c(l.Elements()[b'], l.Elements()[p]) < 0)
  {
    hide *;
    At(l, p);
    right, b' := from, b;
    while right != pivot && c(right.data, pivot.data) >= 0
      invariant p <= b' <= b && right == l.spine[b' + 1] && Parted(c, e0, l.Elements(), lo, hi, a, p, b')
      decreases b' - p
    {
      At(l, b');
      Same(l, b', p);
      PartedSkip(c, e0, l.Elements(), lo, hi, a, p, b');
      right, b' := right.prev, b' - 1;
    }
    At(l, b');
    Same(l, b', p);
  }

  method SwapEnds<T(0,!new)>(l: List<T>, c: (T, T) -> int, x: Node<T>, y: Node<T>, ghost e0: seq<T>,
                             ghost lo: nat, ghost hi: nat, ghost a: nat, ghost p: nat, ghost b: nat)
    returns (left: Node<T>, right: Node<T>)
    requires l.Valid() && hi <= l.numels && Parted(c, e0, l.Elements(), lo, hi, a, p, b)
    requires a < p < b < l.numels && x == l.spine[a + 1] && y == l.spine[b + 1]
    requires |l.Elements()| == l.numels && c(l.Elements()[a], l.Elements()[p]) > 0 && c(l.Elements()[b], l.Elements()[p]) < 0
    modifies l.spine`data
    ensures l.Valid() && left == l.spine[a + 2] && right == l.spine[b]
    ensures Parted(c, e0, l.Elements(), lo, hi, a + 1, p, b - 1)
  {
    hide *;
    PartedSwap(c, e0, l.Elements(), lo, hi, a, p, b);
    Swap(l, x, y, a, b);
    At(l, a);
    At(l, b);
    left, right := x.next, y.prev;
  }

  /** The two ends approach the pivot, exchanging what is on the wrong side, until one reaches it. */
  method Approach<T(0,!new)>(l: List<T>, c: (T, T) -> int, fel: Node<T>, lel: Node<T>, pivot: Node<T>,
                             ghost lo: nat, ghost p: nat, ghost hi: nat)
    returns (left: Node<T>, right: Node<T>, ghost a: nat, ghost b: nat)
    requires l.Valid() && lo <= p < hi <= l.numels
    requires fel == l.spine[lo + 1] && lel == l.spine[hi] && pivot == l.spine[p + 1]
    modifies l.spine`data
    ensures l.Valid() && a <= p <= b < l.numels && left == l.spine[a + 1] && right == l.spine[b + 1]
    ensures Parted(c, old(l.Elements()), l.Elements(), lo, hi, a, p, b) && (a == p || b == p)
  {
    hide *;
    At(l, p);
    ghost var e0 := l.Elements();
    left, right, a, b := fel, lel, lo, hi - 1;
    PartedStart(c, e0, lo, hi, p);
    while left != pivot && right != pivot
      invariant l.Valid() && a <= p <= b < hi && left == l.spine[a + 1] && right == l.spine[b + 1]
      invariant Parted(c, e0, l.Elements(), lo, hi, a, p, b)
      decreases b - a
    {
      Same(l, a, p);
      Same(l, b, p);
      left, a := SkipLeft(l, c, left, pivot, e0, lo, hi, a, p, b);
      right, b := SkipRight(l, c, right, pivot, e0, lo, hi, a, p, b);
      Same(l, a, p);
      Same(l, b, p);
      if left != pivot && right != pivot {
        left, right := SwapEnds(l, c, left, right, e0, lo, hi, a, p, b);
        a, b := a + 1, b - 1;
      }
    }
    Same(l, a, p);
    Same(l, b, p);
  }

  /** The left part is longer: the pivot moves left past what belongs behind it. */
  method PivotLeft<T(0,!new)>(l: List<T>, c: (T, T) -> int, from: Node<T>, piv: Node<T>, id: nat, ghost e0: seq<T>,
                              ghost lo: nat, ghost hi: nat, ghost a: nat)
    returns (pivot: Node<T>, pivotid: nat)
    requires l.Valid() && lo <= a <= lo + id < hi <= l.numels && from == l.spine[a + 1] && piv == l.spine[lo + id + 1]
    requires Parted(c, e0, l.Elements(), lo, hi, a, lo + id, lo + id)
    modifies l.spine`data
    ensures l.Valid() && lo + pivotid < hi && pivot == l.spine[lo + pivotid + 1]
    ensures Parted(c, e0, l.Elements(), lo, hi, lo + pivotid, lo + pivotid, lo + pivotid)
  {
    hide *;
    At(l, lo + id);
    pivot, pivotid := piv, id;
    var left := from;
    ghost var k := a;
    while left != pivot
      invariant l.Valid() && lo <= k <= lo + pivotid < hi && left == l.spine[k + 1] && pivot == l.spine[lo + pivotid + 1]
      invariant Parted(c, e0, l.Elements(), lo, hi, k, lo + pivotid, lo + pivotid)
      decreases lo + pivotid - k
    {
      At(l, k);
      At(l, lo + pivotid);
      Same(l, k, lo + pivotid);
      if c(left.data, pivot.data) > 0 {
        PartedLeft(c, e0, l.Elements(), lo, hi, k, lo + pivotid);
        var beside := pivot.prev;
        Ring(l, left, beside, pivot, k, lo + pivotid - 1, lo + pivotid);
        pivot, pivotid := pivot.prev, pivotid - 1;
        if pivot == left { break; }
      } else {
        PartedSkip(c, e0, l.Elements(), lo, hi, k, lo + pivotid, lo + pivotid);
        left, k := left.next, k + 1;
      }
    }
    Same(l, k, lo + pivotid);
  }

  method PivotRight<T(0,!new)>(l: List<T>, c: (T, T) -> int, from: Node<T>, piv: Node<T>, id: nat, ghost e0: seq<T>,
                               ghost lo: nat, ghost hi: nat, ghost b: nat)
    returns (pivot: Node<T>, pivotid: nat)
    requires l.Valid() && lo + id <= b < hi <= l.numels && from == l.spine[b + 1] && piv == l.spine[lo + id + 1]
    requires Parted(c, e0, l.Elements(), lo, hi, lo + id, lo + id, b)
    modifies l.spine`data
    ensures l.Valid() && lo + pivotid < hi && pivot == l.spine[lo + pivotid + 1]
    ensures Parted(c, e0, l.Elements(), lo, hi, lo + pivotid, lo + pivotid, lo + pivotid)
  {
    hide *;
    At(l, lo + id);
    pivot, pivotid := piv, id;
    var right := from;
    ghost var k := b;
    while right != pivot
      invariant l.Valid() && lo + pivotid <= k < hi && right == l.spine[k + 1] && pivot == l.spine[lo + pivotid + 1]
      invariant Parted(c, e0, l.Elements(), lo, hi, lo + pivotid, lo + pivotid, k)
      decreases k - pivotid
    {
      At(l, k);
      At(l, lo + pivotid);
      Same(l, k, lo + pivotid);
      if c(right.data, pivot.data) < 0 {
        PartedRight(c, e0, l.Elements(), lo, hi, lo + pivotid, k);
        var beside := pivot.next;
        Ring(l, right, beside, pivot, k, lo + pivotid + 1, lo + pivotid);
        pivot, pivotid := pivot.next, pivotid + 1;
        if pivot == right { break; }
      } else {
        PartedSkip(c, e0, l.Elements(), lo, hi, lo + pivotid, lo + pivotid, k);
        right, k := right.prev, k - 1;
      }
    }
    Same(l, k, lo + pivotid);
  }

  lemma SortedOne<T>(c: (T, T) -> int, e: seq<T>, lo: nat)
    requires lo < |e|
    ensures Permuted(e, e, lo, lo + 1) && Sorted(c, e, lo, lo + 1)
  {
  }

  lemma PermutedSize<T>(a: seq<T>, b: seq<T>, lo: nat, hi: nat)
    requires Permuted(a, b, lo, hi)
    ensures |a| == |b|
  {
  }

  lemma PermutedTwice<T>(a: seq<T>, b: seq<T>, d: seq<T>, lo: nat, hi: nat)
    requires Permuted(a, b, lo, hi) && Permuted(b, d, lo, hi)
    ensures Permuted(a, d, lo, hi)
  {
  }

  lemma SortedStays<T>(c: (T, T) -> int, a: seq<T>, b: seq<T>, lo: nat, hi: nat, lo': nat, hi': nat)
    requires Permuted(a, b, lo, hi) && lo' <= hi' <= |a| && Sorted(c, a, lo', hi') && (hi' <= lo || hi <= lo')
    ensures Sorted(c, b, lo', hi')
  {
    forall k | lo' <= k < hi' ensures a[k] == b[k] { Outside(a, b, lo, hi, k); }
  }

  /** Sorting the left part of a partition keeps it a partition. */
  lemma LeftSorted<T>(c: (T, T) -> int, e0: seq<T>, e: seq<T>, f: seq<T>, lo: nat, p: nat, hi: nat)
    requires Parted(c, e0, e, lo, hi, p, p, p) && Permuted(e, f, lo, p) && Sorted(c, f, lo, p)
    ensures Parted(c, e0, f, lo, hi, p, p, p)
  {
    BeforeStays(c, e, f, lo, p, e[p]);
    Outside(e, f, lo, p, p);
    Widen(e, f, lo, p, lo, hi);
    PermutedTwice(e0, e, f, lo, hi);
    forall k | p + 1 <= k < hi ensures e[k] == f[k] { Outside(e, f, lo, p, k); }
  }

  /** Sorting the right part leaves the left part and the pivot alone. */
  lemma RightSorted<T>(c: (T, T) -> int, f: seq<T>, g: seq<T>, lo: nat, p: nat, hi: nat)
    requires lo <= p < hi <= |f| && Permuted(f, g, p + 1, hi)
    requires Before(c, f, lo, p, f[p]) && After(c, f, p + 1, hi, f[p]) && Sorted(c, f, lo, p)
    ensures |g| == |f| && Before(c, g, lo, p, g[p]) && After(c, g, p + 1, hi, g[p]) && Sorted(c, g, lo, p)
  {
    hide Permuted;
    PermutedSize(f, g, p + 1, hi);
    BeforeStays(c, f, g, p + 1, hi, f[p]);
    Outside(f, g, p + 1, hi, p);
    SortedStays(c, f, g, p + 1, hi, lo, p);
    forall k | lo <= k < p ensures f[k] == g[k] { Outside(f, g, p + 1, hi, k); }
  }

  lemma PartedParts<T>(c: (T, T) -> int, e0: seq<T>, f: seq<T>, lo: nat, p: nat, hi: nat)
    requires Parted(c, e0, f, lo, hi, p, p, p)
    ensures lo <= p < hi <= |f| && Permuted(e0, f, lo, hi) && Before(c, f, lo, p, f[p]) && After(c, f, p + 1, hi, f[p])
  {
  }

  lemma BothSorted<T(!new)>(c: (T, T) -> int, e0: seq<T>, f: seq<T>, g: seq<T>, lo: nat, p: nat, hi: nat)
    requires Compares(c) && Parted(c, e0, f, lo, hi, p, p, p) && Sorted(c, f, lo, p)
    requires Permuted(f, g, p + 1, hi) && Sorted(c, g, p + 1, hi)
    ensures Permuted(e0, g, lo, hi) && Sorted(c, g, lo, hi)
  {
    hide *;
    PartedParts(c, e0, f, lo, p, hi);
    RightSorted(c, f, g, lo, p, hi);
    Glue(c, g, lo, p, hi);
    Widen(f, g, p + 1, hi, lo, hi);
    PermutedTwice(e0, f, g, lo, hi);
  }

  lemma SortedEmpty<T>(c: (T, T) -> int, e: seq<T>, lo: nat)
    requires lo <= |e|
    ensures Permuted(e, e, lo, lo) && Sorted(c, e, lo, lo)
  {
  }

  method Partition<T(0,!new)>(l: List<T>, c: (T, T) -> int, first: nat, fel: Node<T>, last: nat, lel: Node<T>)
    returns (pivot: Node<T>, pivotid: nat)
    requires l.Valid() && first <= last < l.numels && fel == l.spine[first + 1] && lel == l.spine[last + 1]
    modifies l.spine`data
    ensures l.Valid() && first + pivotid <= last && pivot == l.spine[first + pivotid + 1]
    ensures var p := first + pivotid; Parted(c, old(l.Elements()), l.Elements(), first, last + 1, p, p, p)
  {
    hide *;
    At(l, last);
    ghost var e0 := l.Elements();
    pivot, pivotid := PickPivot(l, first, fel, last, lel);
    var left, right, a, b := Approach(l, c, fel, lel, pivot, first, first + pivotid, last + 1);
    PartedBounds(c, e0, l.Elements(), first, last + 1, a, first + pivotid, b);
    Same(l, b, first + pivotid);
    if right == pivot {
      pivot, pivotid := PivotLeft(l, c, left, pivot, pivotid, e0, first, last + 1, a);
    } else {
      pivot, pivotid := PivotRight(l, c, right, pivot, pivotid, e0, first, last + 1, b);
    }
  }

  /** `list_sort_quicksort` */
  method QuickSort<T(0,!new)>(l: List<T>, c: (T, T) -> int, first: nat, fel: Node<T>, last: nat, lel: Node<T>)
    requires l.Valid() && Compares(c) && first <= last < l.numels
    requires fel == l.spine[first + 1] && lel == l.spine[last + 1]
    modifies l.spine`data
    ensures l.Valid()
    ensures Permuted(old(l.Elements()), l.Elements(), first, last + 1) && Sorted(c, l.Elements(), first, last + 1)
    decreases last - first
  {
    hide *;
    At(l, last);
    ghost var e0 := l.Elements();
    if last <= first { SortedOne(c, e0, first); return; }
    if last - first + 1 <= MIN_QUICKSORT {
      SelectionSort(l, c, first, fel, last, lel);
      return;
    }
    var pivot, pivotid := Partition(l, c, first, fel, last, lel);
    ghost var p, e := first + pivotid, l.Elements();
    At(l, p);
    SortedEmpty(c, e, p);
    if pivotid > 0 { QuickSort(l, c, first, fel, first + pivotid - 1, pivot.prev); }
    ghost var f := l.Elements();
    LeftSorted(c, e0, e, f, first, p, last + 1);
    At(l, p);
    SortedEmpty(c, f, p + 1);
    if first + pivotid < last { QuickSort(l, c, first + pivotid + 1, pivot.next, last, lel); }
    BothSorted(c, e0, f, l.Elements(), first, p, last + 1);
  }

  /** In the order the caller asked for. */
  ghost predicate InOrder<T>(cmp: (T, T) -> int, versus: int, e: seq<T>) {
    forall i, j | 0 <= i < j < |e| :: cmp(e[i], e[j]) * -versus <= 0
  }

  lemma WholeSorted<T(!new)>(cmp: (T, T) -> int, versus: int, a: seq<T>, b: seq<T>)
    requires Permuted(a, b, 0, |a|) && Sorted(Directed(cmp, versus), b, 0, |a|)
    ensures multiset(a) == multiset(b) && InOrder(cmp, versus, b)
  {
    assert a[0..|a|] == a && b[0..|a|] == b;
    var d := Directed(cmp, versus);
    forall i, j | 0 <= i < j < |b| ensures cmp(b[i], b[j]) * -versus <= 0 {
      assert d(b[i], b[j]) <= 0;
    }
  }

  lemma Ends<T(0)>(l: List<T>)
    requires l.Valid()
    ensures |l.spine| == l.numels + 2 && l.head.next == l.spine[1] && l.tail.prev == l.spine[l.numels]
    ensures |l.Elements()| == l.numels
  {
  }

  /** `list_sort` */
  method Sort<T(0,!new)>(l: List<T>, cmp: Comparator<T>, versus: int) returns (ok: bool)
    requires l.Valid() && (cmp.Comparator? ==> Compares(cmp.compare))
    modifies l.spine`data
    ensures ok == (!l.iterActive && cmp.Comparator?) && l.Valid()
    ensures !ok ==> l.Elements() == old(l.Elements())
    ensures ok ==> multiset(l.Elements()) == multiset(old(l.Elements())) && InOrder(cmp.compare, versus, l.Elements())
  {
    hide *;
    Ends(l);
    if l.iterActive || cmp.NoComparator? { return false; }
    ok := true;
    ghost var e := l.Elements();
    if l.numels <= 1 { ShortInOrder(cmp.compare, versus, e); return; }
    var c := Directed(cmp.compare, versus);
    DirectedCompares(cmp.compare, versus);
    QuickSort(l, c, 0, l.head.next, l.numels - 1, l.tail.prev);
    WholeSorted(cmp.compare, versus, e, l.Elements());
  }

  lemma ShortInOrder<T>(cmp: (T, T) -> int, versus: int, e: seq<T>)
    requires |e| <= 1
    ensures InOrder(cmp, versus, e)
  {
  }
}
