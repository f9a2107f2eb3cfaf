/** The list every queue of the program is made of: doubly linked nodes between two sentinels, a
    pointer to the middle node, and a small pool of spare nodes. */
module SimcList {
  const MAX_SPARE: nat := 5

  class Node<T(0)> {
    var data: T
    var next: Node?<T>
    var prev: Node?<T>

    constructor ()
      ensures next == null && prev == null
    {
      next, prev := null, null;
    }
  }

  /** The index of the middle element of n. */
  function Middle(n: nat): int { if n == 0 then -1 else (n - 1) / 2 }

  /** A sequence without its elements from lo up to but not including hi. */
  ghost function Without<A>(s: seq<A>, lo: nat, hi: nat): (r: seq<A>)
    requires lo <= hi <= |s|
    ensures |r| == |s| - (hi - lo)
    ensures forall i {:trigger r[i]} | 0 <= i < |r| :: r[i] == s[if i < lo then i else i + (hi - lo)]
  {
    s[..lo] + s[hi..]
  }

  /** A sequence with an element put in at a position. */
  ghost function Inserted<A>(s: seq<A>, k: nat, x: A): (r: seq<A>)
    requires k <= |s|
    ensures |r| == |s| + 1
    ensures forall i {:trigger r[i]} | 0 <= i < |r| :: r[i] == if i < k then s[i] else if i == k then x else s[i - 1]
  {
    s[..k] + [x] + s[k..]
  }

  /** The spare nodes after the nodes xs were given up one by one. */
  ghost function Kept<A>(spares: seq<A>, xs: seq<A>): (r: seq<A>)
    requires |spares| <= MAX_SPARE
    ensures |r| <= MAX_SPARE
  {
    spares + (if |spares| + |xs| <= MAX_SPARE then xs else xs[..MAX_SPARE - |spares|])
  }

  // ---------- 32-bit arithmetic of the bulk operations ----------

  const WORD: int := 0x1_0000_0000
  const LONGEST: int := 0x7fff_ffff

  function ToSigned(x: int): int
    requires 0 <= x < WORD
  {
    if x < WORD / 2 then x else x - WORD
  }

  /** How far `list_delete_range` moves the middle pointer: unsigned arithmetic stored in an int. */
  function RangeShift(n: nat, first: nat, last: nat): int
    requires first <= last < n < WORD / 2
  {
    var numdel := last - first + 1;
    var half := (n - 1 - numdel) % WORD / 2;
    var after := if half < first then half else half + numdel;
    ToSigned((after - (n - 1) / 2) % WORD)
  }

  /** The move lands on the middle of what is left exactly when something is left; when the whole list
      goes, the unsigned difference wraps and the pointer is sent past the head sentinel, and beyond that
      unless the list is as long as an int can count. */
  lemma RangeShiftLands(n: nat, first: nat, last: nat)
    requires first <= last < n < WORD / 2
    ensures var numdel := last - first + 1; var m := Middle(n) + RangeShift(n, first, last);
      && (numdel < n ==> 0 <= m < n && !(first <= m <= last) && (if m < first then m else m - numdel) == Middle(n - numdel))
      && (numdel == n ==> m <= -2 && (m == -2 <==> n == LONGEST))
  {
    if last - first + 1 < n { ShiftProper(n, first, last); } else { ShiftWhole(n); }
  }

  lemma ShiftProper(n: nat, first: nat, last: nat)
    requires first <= last < n < WORD / 2 && last - first + 1 < n
    ensures var numdel := last - first + 1; var half := (n - 1 - numdel) / 2;
      RangeShift(n, first, last) == (if half < first then half else half + numdel) - (n - 1) / 2
  {
    var numdel, mid := last - first + 1, (n - 1) / 2;
    var half := (n - 1 - numdel) / 2;
    assert (n - 1 - numdel) % WORD == n - 1 - numdel;
    var after := if half < first then half else half + numdel;
    assert -WORD / 2 < after - mid < WORD / 2;
    assert (after - mid) % WORD == if after >= mid then after - mid else after - mid + WORD;
  }

  lemma ShiftWhole(n: nat)
    requires 0 < n < WORD / 2
    ensures var m := Middle(n) + RangeShift(n, 0, n - 1); m <= -2 && (m == -2 <==> n == LONGEST)
  {
    var mid := (n - 1) / 2;
    assert (n - 1 - n) % WORD == WORD - 1 && (WORD - 1) / 2 == WORD / 2 - 1;
    var after := WORD / 2 - 1 + n;
    assert WORD / 2 <= after - mid < WORD && (after - mid) % WORD == after - mid;
  }

  /** C's division, which truncates towards zero. */
  function CDiv(a: int, b: int): int
    requires b > 0
  {
    if a >= 0 then a / b else -((-a) / b)
  }

  /** How far `list_concat` moves the middle pointer from the last element of the first list. */
  function ConcatShift(n1: nat, n2: nat): int {
    var err := n2 - n1;
    if CDiv(err + 1, 2) > 0 then CDiv(err + 1, 2) else if CDiv(err, 2) < 0 then -CDiv(-err, 2) else 0
  }

  lemma ConcatShiftLands(n1: nat, n2: nat)
    requires n1 + n2 > 0
    ensures n1 - 1 + ConcatShift(n1, n2) == Middle(n1 + n2)
  {
  }

  /** What becomes of a call of `list_delete_range`. */
  datatype Deletion = Refused | NullFollowed | Deleted

  class List<T(0)> {
    var head: Node<T>
    var tail: Node<T>
    var mid: Node?<T>
    var numels: nat
    var spare: seq<Node<T>>
    var iterActive: bool
    /** Head sentinel, elements, tail sentinel. */
    ghost var spine: seq<Node<T>>

    ghost predicate Distinct() reads this`spine { forall i, j | 0 <= i < j < |spine| :: spine[i] != spine[j] }

    /** The links are mutually inverse, from sentinel to sentinel. */
    ghost predicate Linked()
      reads this`head, this`tail, this`spine, spine
    {
      && |spine| >= 2 && spine[0] == head && spine[|spine| - 1] == tail && Distinct()
      && (forall i | 0 <= i < |spine| - 1 :: spine[i].next == spine[i + 1])
      && (forall i | 0 < i < |spine| :: spine[i].prev == spine[i - 1])
      && head.prev == null && tail.next == null
    }

    /** At most five spare nodes, none of them in use. */
    ghost predicate Pool()
      reads this`spare, this`spine
    {
      PoolBeside(spine)
    }

    ghost predicate PoolBeside(s: seq<Node<T>>)
      reads this`spare
    {
      && |spare| <= MAX_SPARE
      && (forall i, j | 0 <= i < j < |spare| :: spare[i] != spare[j])
      && (forall x | x in spare :: x !in s)
    }

    ghost predicate Valid()
      reads this, spine
    {
      && Linked() && Pool() && |spine| == numels + 2
      && (numels > 0 ==> mid == spine[1 + Middle(numels)])
    }

    /** The library's own check of its representation, `list_repOk`. */
    ghost predicate RepOk()
      reads this, spine
    {
      Valid() && (numels == 0 ==> mid == null)
    }

    ghost function Elements(): (s: seq<T>)
      reads this`spine, spine`data
      requires |spine| >= 2
      ensures |s| == |spine| - 2
      ensures forall i | 0 <= i < |s| :: s[i] == spine[i + 1].data
    {
      Data(spine[1..|spine| - 1])
    }

    static ghost function Data(nodes: seq<Node<T>>): (s: seq<T>)
      reads nodes`data
      ensures |s| == |nodes| && forall i | 0 <= i < |s| :: s[i] == nodes[i].data
    {
      if nodes == [] then [] else Data(nodes[..|nodes| - 1]) + [nodes[|nodes| - 1].data]
    }

    constructor ()
      ensures RepOk() && Elements() == [] && !iterActive && spare == []
      ensures fresh(spine)
    {
      var h := new Node<T>();
      var t := new Node<T>();
      h.next, t.prev := t, h;
      head, tail, mid, numels, spare, iterActive := h, t, null, 0, [], false;
      spine := [h, t];
    }

    /** `list_findpos`: the node at a position, walking from whichever anchor is nearest; -1 and
        `numels` give the sentinels. */
    method FindPos(pos: int) returns (ptr: Node?<T>)
      requires Valid()
      ensures if -1 <= pos <= numels then ptr == spine[pos + 1] else ptr == null
    {
      if pos < -1 || pos > numels { return null; }
      var i;
      if numels > 0 && 4 * (pos + 1) <= numels {
        i, ptr := -1, head;
        while i < pos
          invariant -1 <= i <= pos && ptr == spine[i + 1]
        {
          ptr, i := ptr.next, i + 1;
        }
      } else if numels > 0 && 2 * (pos + 1) < numels {
        i, ptr := (numels - 1) / 2, mid;
        while i > pos
          invariant pos <= i <= numels && ptr == spine[i + 1]
        {
          ptr, i := ptr.prev, i - 1;
        }
      } else if numels > 0 && 4 * (pos + 1) <= 3 * numels {
        i, ptr := (numels - 1) / 2, mid;
        while i < pos
          invariant -1 <= i <= pos && ptr == spine[i + 1]
        {
          ptr, i := ptr.next, i + 1;
        }
      } else {
        i, ptr := numels, tail;
        while i > pos
          invariant pos <= i <= numels && ptr == spine[i + 1]
        {
          ptr, i := ptr.prev, i - 1;
        }
      }
    }

    /** `list_get_at`: the size itself passes for a position, and gives the data of the tail sentinel. */
    method GetAt(pos: nat) returns (found: bool, data: T)
      requires Valid()
      ensures found <==> pos <= numels
      ensures pos < numels ==> data == Elements()[pos]
      ensures pos == numels ==> data == tail.data
    {
      var n := FindPos(pos);
      if n == null { found, data := false, head.data; } else { found, data := true, n.data; }
    }

    method TakeNode(data: T) returns (lent: Node<T>)
      requires Linked() && Pool()
      modifies this`spare, spare
      ensures Linked() && Pool() && lent !in spine && lent !in spare
      ensures Elements() == old(Elements()) && lent.data == data
      ensures fresh(lent) || lent in old(spare)
      ensures spare == if |old(spare)| > 0 then old(spare)[..|old(spare)| - 1] else []
    {
      if |spare| > 0 {
        lent := spare[|spare| - 1];
        assert lent in spare;
        spare := spare[..|spare| - 1];
      } else {
        lent := new Node<T>();
      }
      lent.data := data;
    }

    lemma Spread(s: seq<Node<T>>, k: nat, x: Node<T>)
      requires k < |s| && x !in s
      requires forall a, b | 0 <= a < b < |s| :: s[a] != s[b]
      ensures forall a, b | 0 <= a < b < |s| + 1 :: Inserted(s, k, x)[a] != Inserted(s, k, x)[b]
      ensures forall y | y in Inserted(s, k, x) :: y == x || y in s
    {
    }

    /** Puts a node between the k-th of the spine and its successor. */
    method LinkBetween(prec: Node<T>, lent: Node<T>, succ: Node<T>, ghost k: nat)
      requires Linked() && k + 1 < |spine| && prec == spine[k] && succ == spine[k + 1] && lent !in spine
      modifies this`spine, prec`next, succ`prev, lent`next, lent`prev
      ensures Linked() && spine == Inserted(old(spine), k + 1, lent)
    {
      hide Inserted;
      ghost var s := spine;
      Spread(s, k + 1, lent);
      prec.next := lent;
      lent.prev := prec;
      lent.next := succ;
      succ.prev := lent;
      spine := Inserted(s, k + 1, lent);
      forall i | 0 <= i < |spine| - 1 ensures spine[i].next == spine[i + 1] {
        if i < k {
          assert spine[i] == s[i] && spine[i + 1] == s[i + 1];
        } else if i > k + 1 {
          assert spine[i] == s[i - 1] && spine[i + 1] == s[i];
        }
      }
      forall i | 0 < i < |spine| ensures spine[i].prev == spine[i - 1] {
        if i <= k {
          assert spine[i] == s[i] && spine[i - 1] == s[i - 1];
        } else if i > k + 2 {
          assert spine[i] == s[i - 1] && spine[i - 1] == s[i - 2];
        }
      }
    }

    /** Moves the middle pointer after a node was put at a position. */
    method FixMidAfterInsert(lent: Node<T>, pos: nat)
      requires Linked() && numels > 0 && |spine| == numels + 2 && pos < numels && spine[pos + 1] == lent
      requires numels > 1 ==> mid == spine[if Middle(numels - 1) < pos then 1 + Middle(numels - 1) else 2 + Middle(numels - 1)]
      modifies this`mid
      ensures mid == spine[1 + Middle(numels)]
    {
      if numels == 1 {
        mid := lent;
      } else if numels % 2 == 1 {
        if pos >= (numels - 1) / 2 { mid := mid.next; }
      } else {
        if pos <= (numels - 1) / 2 { mid := mid.prev; }
      }
    }

    method LinkAt(lent: Node<T>, pos: nat)
      requires Valid() && pos <= numels && lent !in spine && lent !in spare
      modifies this`spine, spine`next, spine`prev, lent`next, lent`prev
      ensures Linked() && Pool() && spine == Inserted(old(spine), pos + 1, lent)
    {
      hide *;
      var prec := FindPos(pos - 1);
      Beside(pos);
      PoolWith(pos, lent);
      LinkBetween(prec, lent, prec.next, pos);
      PoolIs();
    }

    lemma Beside(pos: nat)
      requires Valid() && pos <= numels
      ensures Linked() && |spine| == numels + 2 && spine[pos].next == spine[pos + 1]
      ensures forall i, j | 0 <= i < j < |spine| :: spine[i] != spine[j]
    {
    }

    lemma PoolWith(pos: nat, lent: Node<T>)
      requires Valid() && pos <= numels && lent !in spine && lent !in spare
      ensures |spine| == numels + 2 && PoolBeside(Inserted(spine, pos + 1, lent))
    {
      Spread(spine, pos + 1, lent);
    }

    lemma PoolIs()
      requires PoolBeside(spine)
      ensures Pool()
    {
    }

    /** Where the middle of the old elements is once one more is put in. */
    lemma MidAfterInsert(pos: nat, lent: Node<T>)
      requires Valid() && pos <= numels
      ensures |spine| == numels + 2
      ensures var m := Middle(numels);
        numels > 0 ==> mid == Inserted(spine, pos + 1, lent)[if m < pos then 1 + m else 2 + m]
    {
    }

    lemma RepIs()
      requires Linked() && Pool() && |spine| == numels + 2 && numels > 0 && mid == spine[1 + Middle(numels)]
      ensures RepOk()
    {
    }

    method InsertNode(lent: Node<T>, pos: nat)
      requires Valid() && pos <= numels && lent !in spine && lent !in spare
      modifies this`spine, this`numels, this`mid, spine`next, spine`prev, lent`next, lent`prev
      ensures RepOk() && spine == Inserted(old(spine), pos + 1, lent)
    {
      hide *;
      MidAfterInsert(pos, lent);
      LinkAt(lent, pos);
      numels := numels + 1;
      FixMidAfterInsert(lent, pos);
      RepIs();
    }

    method PutAt(lent: Node<T>, pos: nat)
      requires Valid() && pos <= numels && lent !in spine && lent !in spare
      modifies this`spine, this`numels, this`mid, spine`next, spine`prev, lent`next, lent`prev
      ensures RepOk() && Elements() == Inserted(old(Elements()), pos, lent.data)
      ensures forall x | x in spine :: x == lent || x in old(spine)
    {
      hide Linked, Pool, Inserted, Elements, Data;
      Beside(pos);
      Member(spine, lent, pos + 1);
      InsertNode(lent, pos);
    }

    lemma Member(s: seq<Node<T>>, lent: Node<T>, k: nat)
      requires k <= |s|
      ensures forall x | x in Inserted(s, k, lent) :: x == lent || x in s
    {
    }

    method InsertAt(data: T, pos: nat) returns (ok: bool)
      requires Valid()
      modifies this`spine, this`numels, this`mid, this`spare, spine`next, spine`prev, spare
      ensures ok == (!iterActive && pos <= old(numels))
      ensures !ok ==> Valid() && spine == old(spine) && Elements() == old(Elements()) && spare == old(spare)
      ensures ok ==> RepOk() && Elements() == Inserted(old(Elements()), pos, data)
      ensures ok ==> spare == if |old(spare)| > 0 then old(spare)[..|old(spare)| - 1] else []
      ensures forall x | x in spine :: x in old(spine) || x in old(spare) || fresh(x)
    {
      hide Linked, Pool, Elements, Data, Inserted;
      if iterActive || pos > numels { return false; }
      var lent := TakeNode(data);
      PutAt(lent, pos);
      ok := true;
    }

    // ---------- removing ----------

    lemma Cut(s: seq<Node<T>>, k: nat, j: nat)
      requires k < j < |s|
      requires forall a, b | 0 <= a < b < |s| :: s[a] != s[b]
      ensures var r := s[..k + 1] + s[j..];
        && |r| == |s| - (j - k - 1)
        && (forall i | 0 <= i < |r| :: r[i] == s[if i <= k then i else i + (j - k - 1)])
        && (forall a, b | 0 <= a < b < |r| :: r[a] != r[b])
    {
    }

    /** Makes the k-th node of the spine the neighbour of the j-th. */
    method Bridge(prec: Node<T>, succ: Node<T>, ghost k: nat, ghost j: nat)
      requires Linked() && k < j < |spine| && prec == spine[k] && succ == spine[j]
      modifies this`spine, prec`next, succ`prev
      ensures Linked() && spine == Without(old(spine), k + 1, j)
    {
      ghost var s := spine;
      Cut(s, k, j);
      prec.next := succ;
      succ.prev := prec;
      spine := s[..k + 1] + s[j..];
      forall i | 0 <= i < |spine| - 1 ensures spine[i].next == spine[i + 1] {
        if i < k {
          assert spine[i] == s[i] && spine[i + 1] == s[i + 1];
        } else if i > k {
          assert spine[i] == s[i + (j - k - 1)] && spine[i + 1] == s[i + (j - k - 1) + 1];
        }
      }
      forall i | 0 < i < |spine| ensures spine[i].prev == spine[i - 1] {
        if i <= k {
          assert spine[i] == s[i] && spine[i - 1] == s[i - 1];
        } else if i > k + 1 {
          assert spine[i] == s[i + (j - k - 1)] && spine[i - 1] == s[i + (j - k - 1) - 1];
        }
      }
    }

    /** The end of the life of a node: kept as a spare while there is room. */
    method Retire(x: Node<T>, ghost s: seq<Node<T>>)
      requires PoolBeside(s) && x !in s && x !in spare
      modifies this`spare
      ensures PoolBeside(s) && spare == if |old(spare)| < MAX_SPARE then old(spare) + [x] else old(spare)
    {
      if |spare| < MAX_SPARE { spare := spare + [x]; }
    }

    method FixMidBeforeDrop(pos: nat)
      requires Valid() && pos < numels
      modifies this`mid
      ensures mid == if numels == 1 then head
        else spine[if Middle(numels - 1) < pos then 1 + Middle(numels - 1) else 2 + Middle(numels - 1)]
    {
      assert forall i | 0 < i < |spine| :: spine[i].prev == spine[i - 1];
      if numels % 2 == 1 {
        if pos >= numels / 2 { mid := mid.prev; }
      } else {
        if pos < numels / 2 { mid := mid.next; }
      }
    }

    /** `list_drop_elem`: everything but the count. */
    method DropElem(tmp: Node<T>, pos: nat)
      requires Valid() && pos < numels && tmp == spine[pos + 1]
      modifies this`spine, this`mid, this`spare, spine`next, spine`prev
      ensures Linked() && PoolBeside(spine) && spine == Without(old(spine), pos + 1, pos + 2)
      ensures mid == if numels == 1 then head else spine[1 + Middle(numels - 1)]
      ensures spare == if |old(spare)| < MAX_SPARE then old(spare) + [tmp] else old(spare)
    {
      hide *;
      BeforeDrop(pos);
      FixMidBeforeDrop(pos);
      Unhook(tmp, pos);
    }

    lemma BeforeDrop(pos: nat)
      requires Valid() && pos < numels
      ensures Linked() && |spine| == numels + 2 && spine[0] == head
      ensures spine[pos + 1] !in spare && spine[pos + 1] !in Without(spine, pos + 1, pos + 2)
      ensures PoolBeside(Without(spine, pos + 1, pos + 2))
      ensures |Without(spine, pos + 1, pos + 2)| == numels + 1 && (numels > 1 ==> 0 <= Middle(numels - 1) < numels - 1)
      ensures numels > 1 ==>
        Without(spine, pos + 1, pos + 2)[1 + Middle(numels - 1)]
          == spine[if Middle(numels - 1) < pos then 1 + Middle(numels - 1) else 2 + Middle(numels - 1)]
    {
      Neighbours(pos);
      Apart(spine, pos);
      PoolShrinks(spine, Without(spine, pos + 1, pos + 2));
      Shifted(spine, pos, Middle(numels - 1));
    }

    method Unhook(tmp: Node<T>, ghost pos: nat)
      requires Linked() && pos + 2 < |spine| && tmp == spine[pos + 1]
      requires tmp !in spare && tmp !in Without(spine, pos + 1, pos + 2) && PoolBeside(Without(spine, pos + 1, pos + 2))
      modifies this`spine, this`spare, spine`next, spine`prev
      ensures Linked() && PoolBeside(spine) && spine == Without(old(spine), pos + 1, pos + 2)
      ensures spare == if |old(spare)| < MAX_SPARE then old(spare) + [tmp] else old(spare)
    {
      Neighbours(pos);
      hide *;
      Bridge(tmp.prev, tmp.next, pos, pos + 2);
      Retire(tmp, spine);
    }

    lemma Neighbours(pos: nat)
      requires Linked() && pos + 2 < |spine|
      ensures spine[pos + 1].prev == spine[pos] && spine[pos + 1].next == spine[pos + 2] && spine[0] == head
      ensures forall i, j | 0 <= i < j < |spine| :: spine[i] != spine[j]
    {
    }

    lemma PoolShrinks(s: seq<Node<T>>, r: seq<Node<T>>)
      requires PoolBeside(s) && forall x | x in r :: x in s
      ensures PoolBeside(r)
      ensures forall x | x in s :: x !in spare
    {
    }

    lemma Apart(s: seq<Node<T>>, pos: nat)
      requires pos + 2 <= |s| && forall i, j | 0 <= i < j < |s| :: s[i] != s[j]
      ensures s[pos + 1] !in Without(s, pos + 1, pos + 2)
      ensures forall x | x in Without(s, pos + 1, pos + 2) :: x in s
    {
    }

    lemma Shifted(s: seq<Node<T>>, pos: nat, m: int)
      requires pos + 2 < |s| && -1 <= m < |s| - 2
      ensures Without(s, pos + 1, pos + 2)[1 + m] == s[if m < pos then 1 + m else 2 + m]
    {
    }

    method DropAt(tmp: Node<T>, pos: nat)
      requires Valid() && pos < numels && tmp == spine[pos + 1]
      modifies this`spine, this`mid, this`spare, this`numels, spine`next, spine`prev
      ensures Valid() && spine == Without(old(spine), pos + 1, pos + 2)
      ensures numels == old(numels) - 1 && (numels == 0 ==> mid != null)
      ensures spare == if |old(spare)| < MAX_SPARE then old(spare) + [tmp] else old(spare)
    {
      hide Linked, PoolBeside;
      DropElem(tmp, pos);
      numels := numels - 1;
    }

    method DeleteAt(pos: nat) returns (ok: bool)
      requires Valid()
      modifies this`spine, this`mid, this`spare, this`numels, spine`next, spine`prev
      ensures ok == (!iterActive && pos < old(numels)) && Valid()
      ensures !ok ==> spine == old(spine) && spare == old(spare) && Elements() == old(Elements()) && mid == old(mid)
      ensures ok ==> Elements() == Without(old(Elements()), pos, pos + 1)
      ensures ok ==> (RepOk() <==> numels > 0)
      ensures forall x | x in spine :: x in old(spine)
    {
      hide Linked, Pool, Elements, Data, Without;
      if iterActive || pos >= numels { return false; }
      Beside(pos);
      Apart(spine, pos);
      var delendo := FindPos(pos);
      DropAt(delendo, pos);
      assert Elements() == Without(old(Elements()), pos, pos + 1);
      ok := true;
    }

    method ExtractAt(pos: nat) returns (ok: bool, data: T)
      requires Valid()
      modifies this`spine, this`mid, this`spare, this`numels, spine`next, spine`prev
      ensures ok == (!iterActive && pos < old(numels)) && Valid()
      ensures !ok ==> spine == old(spine) && spare == old(spare) && Elements() == old(Elements())
      ensures ok ==> data == old(Elements())[pos] && Elements() == Without(old(Elements()), pos, pos + 1)
      ensures ok ==> (RepOk() <==> numels > 0)
    {
      hide Linked, Pool, Elements, Data, Without;
      if iterActive || pos >= numels { return false, head.data; }
      Beside(pos);
      var tmp := FindPos(pos);
      data := tmp.data;
      ok := DeleteAt(pos);
    }

    // ---------- bulk operations ----------

    /** The loops that move the middle pointer a number of nodes right or left. The move can end beyond a
        sentinel, with a null pointer, but cannot go on from there. */
    method MoveMid(steps: int, ghost k: int) returns (ok: bool)
      requires Linked() && 0 <= 1 + k < |spine| && mid == spine[1 + k]
      modifies this`mid
      ensures ok <==> -1 <= 1 + k + steps <= |spine|
      ensures ok ==> mid == if 0 <= 1 + k + steps < |spine| then spine[1 + k + steps] else null
    {
      var i := 0;
      if steps > 0 {
        while i < steps && mid != null
          invariant 0 <= i <= steps && 1 + k + i <= |spine|
          invariant mid == if 1 + k + i < |spine| then spine[1 + k + i] else null
        {
          mid, i := mid.next, i + 1;
        }
        ok := i == steps;
      } else {
        while i < -steps && mid != null
          invariant 0 <= i <= -steps && -1 <= 1 + k - i
          invariant mid == if 0 <= 1 + k - i then spine[1 + k - i] else null
        {
          mid, i := mid.prev, i + 1;
        }
        ok := i == -steps;
      }
    }

    /** Gives up `count` nodes from `from` on, and returns the first node after them. */
    method RetireRange(from: Node<T>, ghost k: nat, count: nat) returns (rest: Node?<T>)
      requires Linked() && |spare| <= MAX_SPARE && k + count < |spine| && from == spine[k]
      modifies this`spare
      ensures rest == spine[k + count] && spare == Kept(old(spare), spine[k..k + count])
    {
      rest := from;
      for i := 0 to count
        invariant rest == spine[k + i] && |spare| <= MAX_SPARE
        invariant spare == Kept(old(spare), spine[k..k + i])
      {
        KeptStep(old(spare), spine, k, i);
        if |spare| < MAX_SPARE { spare := spare + [rest]; }
        rest := rest.next;
      }
    }

    lemma KeptNone(sp: seq<Node<T>>, s: seq<Node<T>>)
      requires |s| > 0 && |sp| <= MAX_SPARE
      ensures Kept(sp, s[1..1]) == sp
    {
    }

    lemma KeptStep(sp: seq<Node<T>>, s: seq<Node<T>>, k: nat, i: nat)
      requires k + i < |s| && |sp| <= MAX_SPARE
      ensures Kept(sp, s[k..k + i + 1]) == if |Kept(sp, s[k..k + i])| < MAX_SPARE then Kept(sp, s[k..k + i]) + [s[k + i]] else Kept(sp, s[k..k + i])
    {
      assert s[k..k + i + 1] == s[k..k + i] + [s[k + i]];
    }

    lemma KeptApart(sp: seq<Node<T>>, s: seq<Node<T>>, lo: nat, hi: nat)
      requires lo <= hi <= |s| && |sp| <= MAX_SPARE
      requires forall i, j | 0 <= i < j < |s| :: s[i] != s[j]
      requires forall i, j | 0 <= i < j < |sp| :: sp[i] != sp[j]
      requires forall x | x in sp :: x !in s
      ensures forall i, j | 0 <= i < j < |Kept(sp, s[lo..hi])| :: Kept(sp, s[lo..hi])[i] != Kept(sp, s[lo..hi])[j]
      ensures forall x | x in Kept(sp, s[lo..hi]) :: x !in Without(s, lo, hi)
    {
      var kept := Kept(sp, s[lo..hi]);
      assert forall i | 0 <= i < |kept| :: kept[i] == if i < |sp| then sp[i] else s[lo + (i - |sp|)];
      forall i, j | 0 <= i < j < |kept| ensures kept[i] != kept[j] {
        if i < |sp| && j >= |sp| {
          assert sp[i] in sp && s[lo + (j - |sp|)] in s;
        }
      }
    }

    /** The nodes of a range are given up and bridged over. */
    method CutRange(tmp: Node<T>, first: nat, last: nat)
      requires Linked() && Pool() && first <= last && last + 2 < |spine| && tmp == spine[first + 1]
      modifies this`spine, this`spare, spine`next, spine`prev
      ensures Linked() && PoolBeside(spine) && spine == Without(old(spine), first + 1, last + 2)
      ensures spare == Kept(old(spare), old(spine)[first + 1..last + 2])
    {
      ghost var s := spine;
      Neighbours(first);
      KeptApart(spare, spine, first + 1, last + 2);
      assert |spare| <= MAX_SPARE;
      var lastValid := tmp.prev;
      hide Linked;
      var rest := RetireRange(tmp, first + 1, last + 1 - first);
      Bridge(lastValid, rest, first, last + 2);
    }

    method DeleteFound(tmp: Node<T>, first: nat, last: nat) returns (ok: bool)
      requires Valid() && numels < WORD / 2
      requires first <= last < numels && tmp == spine[first + 1]
      modifies this`spine, this`mid, this`spare, this`numels, spine`next, spine`prev
      ensures ok <==> last + 1 - first < old(numels) || old(numels) == LONGEST
      ensures !ok ==> unchanged(this`spine, this`spare, this`numels) && forall x | x in spine :: unchanged(x)
      ensures ok ==> Valid() && RepOk() && spine == Without(old(spine), first + 1, last + 2)
      ensures ok ==> spare == Kept(old(spare), old(spine)[first + 1..last + 2])
    {
      hide *;
      BeforeDelete(first, last);
      ok := MoveMid(RangeShift(numels, first, last), Middle(numels));
      if !ok { return; }
      CutRange(tmp, first, last);
      numels := numels - (last - first + 1);
      PoolIs();
      if numels > 0 { RepIs(); } else { RepIsEmpty(); }
      RepIsValid();
    }

    lemma RepIsEmpty()
      requires Linked() && Pool() && |spine| == 2 && numels == 0 && mid == null
      ensures RepOk()
    {
    }

    /** The middle pointer moves to what will be the middle of what is left, or is lost. */
    lemma BeforeDelete(first: nat, last: nat)
      requires Valid() && numels < WORD / 2 && first <= last < numels
      ensures Linked() && Pool() && |spine| == numels + 2 && 0 <= Middle(numels) < numels && mid == spine[1 + Middle(numels)]
      ensures var m, n := 1 + Middle(numels) + RangeShift(numels, first, last), numels - (last - first + 1);
        && (n > 0 ==> 0 < m <= numels && 0 <= Middle(n) < n && Without(spine, first + 1, last + 2)[1 + Middle(n)] == spine[m])
        && (n == 0 ==> m <= -1 && (m == -1 <==> numels == LONGEST))
        && |Without(spine, first + 1, last + 2)| == n + 2
    {
      RangeShiftLands(numels, first, last);
      hide RangeShift;
    }

    /** `list_delete_range`. When the range is the whole list, the middle pointer is followed past its end. */
    method DeleteRange(first: nat, last: nat) returns (res: Deletion)
      requires Valid() && numels < WORD / 2
      modifies this`spine, this`mid, this`spare, this`numels, spine`next, spine`prev
      ensures res.Refused? <==> iterActive || last < first || last >= old(numels)
      ensures res.NullFollowed? <==> !iterActive && first == 0 && last + 1 == old(numels) && old(numels) != LONGEST
      ensures !res.Deleted? ==> spine == old(spine) && spare == old(spare) && Elements() == old(Elements())
      ensures res.Refused? ==> Valid() && mid == old(mid)
      ensures res.Deleted? ==> RepOk() && Elements() == Without(old(Elements()), first, last + 1)
      ensures res.Deleted? ==> spare == Kept(old(spare), old(spine)[first + 1..last + 2])
    {
      hide Linked, Pool, Kept, Elements, Data, Without;
      if iterActive || last < first || last >= numels { return Refused; }
      Beside(first);
      var tmp := FindPos(first);
      var ok := DeleteFound(tmp, first, last);
      if !ok {
        assert Elements() == old(Elements());
        return NullFollowed;
      }
      assert Elements() == Without(old(Elements()), first, last + 1);
      res := Deleted;
    }

    /** Keeps elements as spares while there is room, and lets go of the rest. */
    method RetireAll()
      requires Linked() && |spare| <= MAX_SPARE && |spine| == numels + 2
      modifies this`spare
      ensures spare == Kept(old(spare), spine[1..numels + 1])
    {
      hide Kept;
      KeptNone(old(spare), spine);
      var x := head.next;
      ghost var i := 0;
      while |spare| < MAX_SPARE && x != tail
        invariant i <= numels && x == spine[i + 1] && |spare| <= MAX_SPARE
        invariant spare == Kept(old(spare), spine[1..i + 1])
        decreases numels - i
      {
        KeptStep(old(spare), spine, 1, i);
        spare := spare + [x];
        x, i := x.next, i + 1;
      }
      while x != tail
        invariant i <= numels && x == spine[i + 1] && (x == tail || |spare| == MAX_SPARE)
        invariant spare == Kept(old(spare), spine[1..i + 1])
        decreases numels - i
      {
        KeptStep(old(spare), spine, 1, i);
        x, i := x.next, i + 1;
      }
    }

    method Clear() returns (ok: bool)
      requires Valid()
      modifies this`spine, this`mid, this`spare, this`numels, head`next, tail`prev
      ensures ok == !iterActive && Valid()
      ensures !ok ==> spine == old(spine) && spare == old(spare) && Elements() == old(Elements()) && mid == old(mid)
      ensures ok ==> RepOk() && Elements() == [] && spine == [head, tail]
      ensures ok ==> spare == Kept(old(spare), old(spine)[1..old(numels) + 1])
    {
      hide Kept, Elements, Data;
      if iterActive { return false; }
      BeforeClear();
      RetireAll();
      head.next := tail;
      tail.prev := head;
      spine := [head, tail];
      numels, mid := 0, null;
      ok := true;
    }

    lemma BeforeClear()
      requires Valid()
      ensures |spine| == numels + 2 && head != tail
      ensures var kept := Kept(spare, spine[1..numels + 1]);
        && (forall i, j | 0 <= i < j < |kept| :: kept[i] != kept[j]) && (forall x | x in kept :: x != head && x != tail)
    {
      KeptApart(spare, spine, 1, numels + 1);
      assert Without(spine, 1, numels + 1) == [head, tail];
      hide Kept;
    }

    // ---------- concatenation ----------

    /** A chain of linked nodes that starts at the head sentinel and does not end yet. */
    ghost predicate Chain(c: seq<Node<T>>)
      reads this`head, this`tail, c
    {
      && |c| >= 1 && c[0] == head && head.prev == null && tail !in c
      && (forall i, j | 0 <= i < j < |c| :: c[i] != c[j])
      && (forall i | 0 <= i < |c| - 1 :: c[i].next == c[i + 1])
      && (forall i | 0 < i < |c| :: c[i].prev == c[i - 1])
    }

    /** One turn of the copying loops: a new node behind the last. */
    method Grow(el: Node<T>, data: T, ghost c: seq<Node<T>>) returns (last: Node<T>)
      requires Chain(c) && el == c[|c| - 1]
      modifies el`next
      ensures fresh(last) && Chain(c + [last]) && last.data == data
    {
      last := new Node<T>();
      el.next := last;
      last.prev := el;
      last.data := data;
    }

    /** Copies the elements of a list behind the chain. */
    method CopyAfter(src: List<T>, el: Node<T>, ghost c: seq<Node<T>>) returns (last: Node<T>, ghost d: seq<Node<T>>)
      requires src.Valid() && |c| > 0 && Chain(c) && el == c[|c| - 1] && el !in src.spine
      modifies el`next
      ensures fresh(d) && |d| == src.numels && Chain(c + d) && last == (c + d)[|c + d| - 1]
      ensures forall i | 0 <= i < |d| :: d[i].data == src.Elements()[i]
    {
      hide Chain;
      last, d := el, [];
      assert c + d == c;
      var srcel := src.head.next;
      while srcel != src.tail
        invariant fresh(d) && |d| <= src.numels && srcel == src.spine[|d| + 1]
        invariant Chain(c + d) && last == (c + d)[|c + d| - 1] && last !in src.spine
        invariant forall i | 0 <= i < |d| :: d[i].data == src.Elements()[i]
        decreases src.numels - |d|
      {
        last := Grow(last, srcel.data, c + d);
        assert c + d + [last] == c + (d + [last]);
        d := d + [last];
        srcel := srcel.next;
      }
    }

    /** Ties the end of a chain to the tail sentinel. */
    method Close(last: Node<T>, ghost c: seq<Node<T>>)
      requires Chain(c) && last == c[|c| - 1] && tail.next == null && |spare| == 0
      modifies this`spine, last`next, tail`prev
      ensures Linked() && Pool() && spine == c + [tail]
    {
      last.next := tail;
      tail.prev := last;
      spine := c + [tail];
    }

    /** `list_init` over a list whatever it held. */
    method Init()
      modifies this
      ensures RepOk() && numels == 0 && spine == [head, tail] && Elements() == []
      ensures fresh(head) && fresh(tail) && spare == [] && !iterActive
    {
      var h := new Node<T>();
      var t := new Node<T>();
      h.next, t.prev := t, h;
      head, tail, mid, numels, spare, iterActive := h, t, null, 0, [], false;
      spine := [h, t];
    }

    /** Copies both lists between the sentinels, and leaves the middle pointer on the last copy of the first. */
    method CopyBoth(l1: List<T>, l2: List<T>) returns (ghost d1: seq<Node<T>>, ghost d2: seq<Node<T>>)
      requires l1.Valid() && l2.Valid() && l1 != this && l2 != this
      requires Chain([head]) && head != tail && tail.next == null && spare == []
      requires head !in l1.spine && head !in l2.spine
      modifies this`mid, this`spine, head`next, tail`prev
      ensures Linked() && Pool() && spine == [head] + d1 + d2 + [tail] && fresh(d1) && fresh(d2)
      ensures |d1| == l1.numels && |d2| == l2.numels && mid == ([head] + d1)[|d1|]
      ensures forall i | 0 <= i < |d1| :: d1[i].data == l1.Elements()[i]
      ensures forall i | 0 <= i < |d2| :: d2[i].data == l2.Elements()[i]
    {
      hide *;
      var el, last;
      el, d1 := CopyAfter(l1, head, [head]);
      mid := el;
      last, d2 := CopyAfter(l2, el, [head] + d1);
      Close(last, [head] + d1 + d2);
    }

    lemma Joined(l1: List<T>, l2: List<T>, d1: seq<Node<T>>, d2: seq<Node<T>>)
      requires |l1.spine| == l1.numels + 2 && |l2.spine| == l2.numels + 2 && spine == [head] + d1 + d2 + [tail]
      requires |d1| == l1.numels && |d2| == l2.numels
      requires forall i | 0 <= i < |d1| :: d1[i].data == l1.Elements()[i]
      requires forall i | 0 <= i < |d2| :: d2[i].data == l2.Elements()[i]
      ensures |spine| == l1.numels + l2.numels + 2 && ([head] + d1)[|d1|] == spine[l1.numels]
      ensures Elements() == l1.Elements() + l2.Elements()
    {
      hide Linked, Pool, Elements, Data;
      assert spine == [head] + (d1 + d2) + [tail];
    }

    method Join(l1: List<T>, l2: List<T>)
      requires l1.Valid() && l2.Valid() && l1 != this && l2 != this
      requires Chain([head]) && head != tail && tail.next == null && spare == []
      requires head !in l1.spine && head !in l2.spine
      modifies this`mid, this`spine, head`next, tail`prev
      ensures Linked() && Pool() && |spine| == l1.numels + l2.numels + 2 && mid == spine[l1.numels]
      ensures Elements() == l1.Elements() + l2.Elements()
      ensures forall i | 0 <= i < |spine| :: spine[i] == head || spine[i] == tail || fresh(spine[i])
    {
      assert |l1.spine| == l1.numels + 2 && |l2.spine| == l2.numels + 2;
      hide *;
      ghost var d1, d2 := CopyBoth(l1, l2);
      Joined(l1, l2, d1, d2);
    }

    method CentreMid(n1: nat, n2: nat)
      requires Linked() && Pool() && n1 + n2 > 0 && |spine| == n1 + n2 + 2 && mid == spine[n1]
      modifies this`mid, this`numels
      ensures RepOk() && numels == n1 + n2
    {
      hide Linked, Pool;
      numels := n1 + n2;
      ConcatShiftLands(n1, n2);
      var _ := MoveMid(ConcatShift(n1, n2), n1 - 1);
    }

    lemma Empty(l: List<T>)
      requires l.Valid()
      ensures |l.spine| == l.numels + 2 && (l.Elements() == [] <==> l.numels == 0)
    {
    }

    method Refill(l1: List<T>, l2: List<T>)
      requires l1.Valid() && l2.Valid() && l1 != this && l2 != this && l1.numels + l2.numels > 0
      requires RepOk() && numels == 0 && spare == []
      requires head !in l1.spine && head !in l2.spine
      modifies this`mid, this`numels, this`spine, head`next, tail`prev
      ensures RepOk() && Elements() == old(l1.Elements() + l2.Elements())
      ensures forall i | 0 <= i < |spine| :: spine[i] == head || spine[i] == tail || fresh(spine[i])
    {
      assert Chain([head]) && head != tail && tail.next == null && spine == [head, tail];
      hide *;
      Join(l1, l2);
      CentreMid(l1.numels, l2.numels);
    }

    /** `list_concat` into this list. */
    method Concat(l1: List<T>, l2: List<T>) returns (ok: bool)
      requires l1.Valid() && l2.Valid()
      modifies this
      ensures ok == (l1 != this && l2 != this)
      ensures !ok ==> unchanged(this)
      ensures ok ==> RepOk() && spare == [] && !iterActive && fresh(spine)
      ensures ok ==> Elements() == old(l1.Elements() + l2.Elements())
    {
      hide *;
      if l1 == this || l2 == this { return false; }
      Empty(l1);
      Empty(l2);
      Init();
      ok := true;
      if l1.numels + l2.numels > 0 { Refill(l1, l2); }
    }

    lemma RepIsValid()
      requires RepOk()
      ensures Valid()
    {
    }
  }
}
