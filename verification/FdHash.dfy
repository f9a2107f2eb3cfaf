/** The set of active descriptors: a list threaded through a fixed table, so that a descriptor is found,
    added and removed in one step and the members are visited in the order of insertion. */
module FdHash {
  const FD_SETSIZE: nat := 1024
  const NONE: int := -1

  /** A member, once removed, leaves the order of the others as it was. */
  function Removed(s: seq<int>, x: int): (r: seq<int>)
    ensures x !in r && (x !in s ==> r == s)
    ensures forall y | y != x :: y in s <==> y in r
  {
    if s == [] then [] else if s[|s| - 1] == x then Removed(s[..|s| - 1], x) else Removed(s[..|s| - 1], x) + [s[|s| - 1]]
  }

  ghost predicate Distinct(s: seq<int>) { forall i, j | 0 <= i < j < |s| :: s[i] != s[j] }

  /** The list without its k-th element. */
  function Drop(s: seq<int>, k: nat): (r: seq<int>)
    requires k < |s|
    ensures |r| == |s| - 1
    ensures forall i | 0 <= i < |r| :: r[i] == s[if i < k then i else i + 1]
  {
    s[..k] + s[k + 1..]
  }

  lemma {:induction false} RemovedAt(s: seq<int>, k: nat)
    requires Distinct(s) && k < |s|
    ensures Removed(s, s[k]) == Drop(s, k)
  {
    var n := |s| - 1;
    if k < n {
      RemovedAt(s[..n], k);
      assert s[..n][..k] == s[..k] && s[..n][k + 1..] + [s[n]] == s[k + 1..];
    } else {
      assert s[n] !in s[..n];
    }
  }

  lemma RemovedDistinct(s: seq<int>, x: int)
    requires Distinct(s)
    ensures Distinct(Removed(s, x))
  {
    if x in s {
      var k :| 0 <= k < |s| && s[k] == x;
      RemovedAt(s, k);
    }
  }

  /** The element at i; none past the ends. */
  function At(s: seq<int>, i: int): int { if 0 <= i < |s| then s[i] else NONE }

  /** The neighbours of the element at i. */
  function After(s: seq<int>, i: int): int { At(s, i + 1) }
  function Before(s: seq<int>, i: int): int { At(s, i - 1) }

  /** A list of distinct descriptors. */
  ghost predicate Listing(s: seq<int>) {
    Distinct(s) && forall i | 0 <= i < |s| :: 0 <= s[i] < FD_SETSIZE
  }

  ghost predicate Forward(next: seq<int>, s: seq<int>)
    requires |next| == FD_SETSIZE && Listing(s)
  {
    forall i | 0 <= i < |s| :: next[s[i]] == After(s, i)
  }

  ghost predicate Backward(previous: seq<int>, s: seq<int>)
    requires |previous| == FD_SETSIZE && Listing(s)
  {
    forall i | 0 <= i < |s| :: previous[s[i]] == Before(s, i)
  }

  ghost predicate Blank(links: seq<int>, s: seq<int>)
    requires |links| == FD_SETSIZE
  {
    forall x | 0 <= x < FD_SETSIZE && x !in s :: links[x] == NONE
  }

  /** The table is exactly the list of the members in order. */
  ghost predicate Threaded(next: seq<int>, previous: seq<int>, head: int, tail: int, s: seq<int>) {
    && |next| == FD_SETSIZE && |previous| == FD_SETSIZE && Listing(s)
    && head == At(s, 0) && tail == At(s, |s| - 1)
    && Forward(next, s) && Backward(previous, s) && Blank(next, s) && Blank(previous, s)
  }

  /** The test in one step that adding and removing start with is exactly membership. */
  lemma Membership(next: seq<int>, previous: seq<int>, head: int, tail: int, s: seq<int>, fd: int)
    requires Threaded(next, previous, head, tail, s) && 0 <= fd < FD_SETSIZE
    ensures fd in s <==> next[fd] != NONE || previous[fd] != NONE || fd == head
  {
    if fd in s {
      var i :| 0 <= i < |s| && s[i] == fd;
      assert previous[s[i]] == Before(s, i);
    }
  }

  lemma AddedListing(s: seq<int>, fd: int)
    requires Listing(s) && 0 <= fd < FD_SETSIZE && fd !in s
    ensures Listing(s + [fd]) && (s != [] ==> 0 <= s[|s| - 1] < FD_SETSIZE)
  {
    assert forall i | 0 <= i < |s| :: (s + [fd])[i] == s[i];
  }

  /** The members and their neighbours after a new last one. */
  lemma AppendAt(s: seq<int>, fd: int, i: nat)
    requires i <= |s|
    ensures var t := s + [fd];
      && t[i] == (if i < |s| then s[i] else fd)
      && Before(t, i) == (if i < |s| then Before(s, i) else At(s, |s| - 1))
      && After(t, i) == (if i == |s| then NONE else if i == |s| - 1 then fd else After(s, i))
  {
  }

  /** The links after one of them changed, unless there is none at `from`. */
  function Bridged(links: seq<int>, from: int, to: int): (r: seq<int>)
    requires |links| == FD_SETSIZE && from < FD_SETSIZE
    ensures |r| == FD_SETSIZE
  {
    if from >= 0 then links[from := to] else links
  }

  lemma BridgedIs(links: seq<int>, from: int, to: int, y: int)
    requires |links| == FD_SETSIZE && from < FD_SETSIZE && 0 <= y < FD_SETSIZE
    ensures Bridged(links, from, to)[y] == if y == from then to else links[y]
  {
  }

  lemma LastIs(s: seq<int>, i: nat)
    requires Listing(s) && i < |s|
    ensures 0 <= s[i] < FD_SETSIZE && (s[i] == At(s, |s| - 1) <==> i == |s| - 1) && s[i] in s && At(s, |s| - 1) in s
  {
  }

  lemma LastBelow(s: seq<int>)
    requires Listing(s)
    ensures At(s, |s| - 1) < FD_SETSIZE && (At(s, |s| - 1) < 0 <==> s == [])
  {
  }

  lemma BlankAt(links: seq<int>, s: seq<int>, x: int)
    requires |links| == FD_SETSIZE && Blank(links, s) && 0 <= x < FD_SETSIZE && x !in s
    ensures links[x] == NONE
  {
  }

  lemma LinkAt(next: seq<int>, previous: seq<int>, s: seq<int>, i: nat)
    requires |next| == FD_SETSIZE && |previous| == FD_SETSIZE && Listing(s) && i < |s|
    ensures 0 <= s[i] < FD_SETSIZE
    ensures Forward(next, s) ==> next[s[i]] == After(s, i)
    ensures Backward(previous, s) ==> previous[s[i]] == Before(s, i)
  {
  }

  lemma ForwardAll(next: seq<int>, s: seq<int>)
    requires |next| == FD_SETSIZE && Listing(s) && forall i | 0 <= i < |s| :: 0 <= s[i] < FD_SETSIZE && next[s[i]] == After(s, i)
    ensures Forward(next, s)
  {
  }

  lemma BackwardAll(previous: seq<int>, s: seq<int>)
    requires |previous| == FD_SETSIZE && Listing(s)
    requires forall i | 0 <= i < |s| :: 0 <= s[i] < FD_SETSIZE && previous[s[i]] == Before(s, i)
    ensures Backward(previous, s)
  {
  }

  lemma BlankAll(links: seq<int>, s: seq<int>)
    requires |links| == FD_SETSIZE && forall x | 0 <= x < FD_SETSIZE && x !in s :: links[x] == NONE
    ensures Blank(links, s)
  {
  }

  lemma AddedForward(next: seq<int>, s: seq<int>, fd: int)
    requires |next| == FD_SETSIZE && Listing(s) && Forward(next, s) && Blank(next, s)
    requires 0 <= fd < FD_SETSIZE && fd !in s && Listing(s + [fd])
    ensures At(s, |s| - 1) < FD_SETSIZE
    ensures var next' := Bridged(next, At(s, |s| - 1), fd); Forward(next', s + [fd]) && Blank(next', s + [fd])
  {
    hide *;
    LastBelow(s);
    var t, next' := s + [fd], Bridged(next, At(s, |s| - 1), fd);
    forall i | 0 <= i < |t| ensures 0 <= t[i] < FD_SETSIZE && next'[t[i]] == After(t, i) {
      AppendAt(s, fd, i);
      if i < |s| {
        LastIs(s, i);
        LinkAt(next, next, s, i);
      } else {
        BlankAt(next, s, fd);
        if s != [] { LastIs(s, i - 1); }
      }
      BridgedIs(next, At(s, |s| - 1), fd, t[i]);
    }
    ForwardAll(next', t);
    forall x | 0 <= x < FD_SETSIZE && x !in t ensures next'[x] == NONE {
      BlankAt(next, s, x);
      if s != [] { LastIs(s, 0); }
      BridgedIs(next, At(s, |s| - 1), fd, x);
    }
    BlankAll(next', t);
  }

  lemma AddedBackward(previous: seq<int>, s: seq<int>, fd: int)
    requires |previous| == FD_SETSIZE && Listing(s) && Backward(previous, s) && Blank(previous, s)
    requires 0 <= fd < FD_SETSIZE && fd !in s && Listing(s + [fd])
    ensures var previous' := Bridged(previous, fd, At(s, |s| - 1)); Backward(previous', s + [fd]) && Blank(previous', s + [fd])
  {
    hide *;
    var t, previous' := s + [fd], Bridged(previous, fd, At(s, |s| - 1));
    forall i | 0 <= i < |t| ensures 0 <= t[i] < FD_SETSIZE && previous'[t[i]] == Before(t, i) {
      AppendAt(s, fd, i);
      if i < |s| {
        LastIs(s, i);
        LinkAt(previous, previous, s, i);
      }
      BridgedIs(previous, fd, At(s, |s| - 1), t[i]);
    }
    BackwardAll(previous', t);
    forall x | 0 <= x < FD_SETSIZE && x !in t ensures previous'[x] == NONE {
      BlankAt(previous, s, x);
      BridgedIs(previous, fd, At(s, |s| - 1), x);
    }
    BlankAll(previous', t);
  }

  lemma Added(next: seq<int>, previous: seq<int>, head: int, tail: int, s: seq<int>, fd: int)
    requires Threaded(next, previous, head, tail, s) && 0 <= fd < FD_SETSIZE && fd !in s
    ensures tail != NONE ==> 0 <= tail < FD_SETSIZE
    ensures Threaded(if tail != NONE then next[tail := fd] else next, if tail != NONE then previous[fd := tail] else previous,
                     if head == NONE then fd else head, fd, s + [fd])
  {
    hide Forward, Backward, Blank, At;
    AddedListing(s, fd);
    AddedForward(next, s, fd);
    AddedBackward(previous, s, fd);
    AddedEnds(s, fd);
    if s == [] {
      BlankAt(previous, s, fd);
      assert previous[fd := NONE] == previous;
    }
  }

  lemma AddedEnds(s: seq<int>, fd: int)
    requires Listing(s) && 0 <= fd
    ensures At(s + [fd], 0) == (if At(s, 0) == NONE then fd else At(s, 0)) && At(s + [fd], |s|) == fd
    ensures (At(s, |s| - 1) == NONE <==> s == []) && (s != [] ==> At(s, |s| - 1) == s[|s| - 1])
  {
  }

  lemma DropListing(s: seq<int>, k: nat)
    requires Listing(s) && k < |s|
    ensures Listing(Drop(s, k))
    ensures forall x | x in s && x != s[k] :: x in Drop(s, k)
  {
    var r := Drop(s, k);
    forall x | x in s && x != s[k] ensures x in r {
      var i :| 0 <= i < |s| && s[i] == x;
      assert r[if i < k then i else i - 1] == x;
    }
  }

  lemma UnlinkForward(next: seq<int>, s: seq<int>, k: nat)
    requires |next| == FD_SETSIZE && Listing(s) && Forward(next, s) && k < |s| && Listing(Drop(s, k))
    ensures Forward(Bridged(next, Before(s, k), After(s, k))[s[k] := NONE], Drop(s, k))
  {
    var r, next' := Drop(s, k), Bridged(next, Before(s, k), After(s, k))[s[k] := NONE];
    hide Drop, Forward, Listing;
    forall i | 0 <= i < |r| ensures next'[r[i]] == After(r, i) {
      ForwardAt(next, s, k, i);
    }
    ForwardAll(next', r);
  }

  lemma ForwardAt(next: seq<int>, s: seq<int>, k: nat, i: nat)
    requires |next| == FD_SETSIZE && Listing(s) && Forward(next, s) && k < |s| && i < |s| - 1
    ensures var r, next' := Drop(s, k), Bridged(next, Before(s, k), After(s, k))[s[k] := NONE];
      0 <= r[i] < FD_SETSIZE && next'[r[i]] == After(r, i)
  {
    hide *;
    var j := if i < k then i else i + 1;
    DropAt(s, k, i);
    Apart(s, k, j);
    LinkAt(next, next, s, j);
    BridgedAt(next, Before(s, k), After(s, k), s[k], s[j]);
  }

  /** Members are distinct, and differ from each other's neighbours unless they are these. */
  lemma Apart(s: seq<int>, k: nat, j: nat)
    requires Listing(s) && k < |s| && j < |s| && j != k
    ensures 0 <= s[k] < FD_SETSIZE && 0 <= s[j] < FD_SETSIZE && s[j] != s[k] && Before(s, k) < FD_SETSIZE && After(s, k) < FD_SETSIZE
    ensures (s[j] == Before(s, k) <==> j + 1 == k) && (s[j] == After(s, k) <==> j == k + 1)
  {
  }

  /** The neighbours after the k-th member went. */
  lemma DropAt(s: seq<int>, k: nat, i: nat)
    requires k < |s| && i < |s| - 1
    ensures var r, j := Drop(s, k), if i < k then i else i + 1;
      && |r| == |s| - 1 && r[i] == s[j]
      && After(r, i) == (if j + 1 == k then After(s, k) else After(s, j))
      && Before(r, i) == (if j == k + 1 then Before(s, k) else Before(s, j))
  {
  }

  lemma BridgedAt(links: seq<int>, from: int, to: int, x: int, y: int)
    requires |links| == FD_SETSIZE && from < FD_SETSIZE && 0 <= x < FD_SETSIZE && 0 <= y < FD_SETSIZE && x != y
    ensures Bridged(links, from, to)[x := NONE][y] == if y == from then to else links[y]
  {
  }

  lemma UnlinkBackward(previous: seq<int>, s: seq<int>, k: nat)
    requires |previous| == FD_SETSIZE && Listing(s) && Backward(previous, s) && k < |s| && Listing(Drop(s, k))
    ensures Backward(Bridged(previous, After(s, k), Before(s, k))[s[k] := NONE], Drop(s, k))
  {
    var r, previous' := Drop(s, k), Bridged(previous, After(s, k), Before(s, k))[s[k] := NONE];
    hide Drop, Backward, Listing;
    forall i | 0 <= i < |r| ensures previous'[r[i]] == Before(r, i) {
      BackwardAt(previous, s, k, i);
    }
    BackwardAll(previous', r);
  }

  lemma BackwardAt(previous: seq<int>, s: seq<int>, k: nat, i: nat)
    requires |previous| == FD_SETSIZE && Listing(s) && Backward(previous, s) && k < |s| && i < |s| - 1
    ensures var r, previous' := Drop(s, k), Bridged(previous, After(s, k), Before(s, k))[s[k] := NONE];
      0 <= r[i] < FD_SETSIZE && previous'[r[i]] == Before(r, i)
  {
    hide *;
    var j := if i < k then i else i + 1;
    DropAt(s, k, i);
    Apart(s, k, j);
    LinkAt(previous, previous, s, j);
    BridgedAt(previous, After(s, k), Before(s, k), s[k], s[j]);
  }

  lemma UnlinkBlank(links: seq<int>, s: seq<int>, k: nat, i: int, j: int)
    requires |links| == FD_SETSIZE && Listing(s) && Blank(links, s) && k < |s| && (i == k - 1 || i == k + 1)
    ensures Blank(Bridged(links, At(s, i), j)[s[k] := NONE], Drop(s, k))
  {
    DropListing(s, k);
    if 0 <= i < |s| { assert s[i] != s[k]; }
  }

  lemma Unlinked(next: seq<int>, previous: seq<int>, head: int, tail: int, s: seq<int>, k: nat)
    requires Threaded(next, previous, head, tail, s) && k < |s|
    ensures var fd := s[k]; var p, n := previous[fd], next[fd];
      && -1 <= p < FD_SETSIZE && -1 <= n < FD_SETSIZE
      && Threaded(Bridged(next, p, n)[fd := NONE], Bridged(previous, n, p)[fd := NONE],
                  if fd == head then n else head, if fd == tail then p else tail, Removed(s, fd))
  {
    hide Forward, Backward, Blank, Listing, Removed, Bridged, Drop;
    Neighbours(next, previous, head, tail, s, k);
    RemovedAt(s, k);
    DropListing(s, k);
    UnlinkForward(next, s, k);
    UnlinkBackward(previous, s, k);
    UnlinkBlank(next, s, k, k - 1, After(s, k));
    UnlinkBlank(previous, s, k, k + 1, Before(s, k));
  }

  lemma Neighbours(next: seq<int>, previous: seq<int>, head: int, tail: int, s: seq<int>, k: nat)
    requires Threaded(next, previous, head, tail, s) && k < |s|
    ensures Distinct(s) && 0 <= s[k] < FD_SETSIZE && previous[s[k]] == Before(s, k) && next[s[k]] == After(s, k)
    ensures -1 <= Before(s, k) < FD_SETSIZE && -1 <= After(s, k) < FD_SETSIZE
    ensures (s[k] == head <==> k == 0) && (s[k] == tail <==> k == |s| - 1)
  {
  }

  class Hash {
    const next: array<int>
    const previous: array<int>
    var head: int
    var tail: int
    ghost var order: seq<int>

    ghost predicate Valid()
      reads this, next, previous
    {
      next != previous && Threaded(next[..], previous[..], head, tail, order)
    }

    /** `fd_hash_init` */
    constructor ()
      ensures Valid() && order == [] && fresh(next) && fresh(previous)
    {
      next := new int[FD_SETSIZE](i => NONE);
      previous := new int[FD_SETSIZE](i => NONE);
      head, tail, order := NONE, NONE, [];
    }

    method Add(fd: int)
      requires Valid() && 0 <= fd < FD_SETSIZE
      modifies this, next, previous
      ensures Valid() && order == if fd in old(order) then old(order) else old(order) + [fd]
    {
      hide Forward, Backward, Blank, Listing;
      Membership(next[..], previous[..], head, tail, order, fd);
      if next[fd] != NONE || previous[fd] != NONE || fd == head { return; }
      Added(next[..], previous[..], head, tail, order, fd);
      if tail != NONE {
        previous[fd] := tail;
        next[tail] := fd;
      }
      tail := fd;
      if head == NONE { head := tail; }
      order := order + [fd];
    }

    method Remove(fd: int)
      requires Valid() && 0 <= fd < FD_SETSIZE
      modifies this, next, previous
      ensures Valid() && order == Removed(old(order), fd) && fd !in order
    {
      hide Forward, Backward, Blank, Listing, Removed;
      Membership(next[..], previous[..], head, tail, order, fd);
      if next[fd] == NONE && previous[fd] == NONE && fd != head { return; }
      ghost var k :| 0 <= k < |order| && order[k] == fd;
      Unlinked(next[..], previous[..], head, tail, order, k);
      var p, n := previous[fd], next[fd];
      if previous[fd] != NONE { next[previous[fd]] := next[fd]; }
      if next[fd] != NONE { previous[next[fd]] := previous[fd]; }
      if fd == head { head := next[fd]; }
      if fd == tail { tail := previous[fd]; }
      next[fd] := NONE;
      previous[fd] := NONE;
      order := Removed(order, fd);
    }

    method Head() returns (fd: int)
      requires Valid()
      ensures fd == At(order, 0)
    {
      fd := if head == NONE then -1 else head;
    }

    /** The descriptor after a member. A descriptor that was removed has none, so a walk that removes the
        descriptor it stands on ends there. */
    method Next(fd: int) returns (r: int)
      requires Valid() && 0 <= fd < FD_SETSIZE
      ensures forall i | 0 <= i < |order| && order[i] == fd :: r == After(order, i)
      ensures fd !in order ==> r == NONE
    {
      r := if next[fd] == NONE then -1 else next[fd];
    }

    /** The loop of `zs_select` and `zfd_select` over an unchanging set: every member once, in order. */
    method Walk() returns (visited: seq<int>)
      requires Valid()
      ensures visited == order
    {
      hide Forward, Backward, Blank;
      var fd := Head();
      visited := [];
      while fd != -1
        invariant |visited| <= |order| && visited == order[..|visited|] && fd == At(order, |visited|)
        decreases |order| - |visited|
      {
        visited := visited + [fd];
        fd := Next(fd);
      }
    }
  }
}
