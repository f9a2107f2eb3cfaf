/** `normalize_path`: a path is rewritten through a stack of indices into the output buffer. */
module Path {
  const MAX_PATH_INDICES: nat := 100

  // ---------- the stack machine ----------

  /** Where the first slash is, or the end. */
  function Slash(p: string): (k: nat)
    ensures k <= |p| && (k < |p| ==> p[k] == '/') && '/' !in p[..k]
  {
    if p == "" || p[0] == '/' then 0 else 1 + Slash(p[1..])
  }

  /** A path cut behind its slashes. */
  function Segments(p: string): (s: seq<string>)
    ensures |s| > 0
    decreases |p|
  {
    var k := Slash(p);
    if k + 1 >= |p| then [p] else [p[..k + 1]] + Segments(p[k + 1..])
  }

  /** A segment without its slash. */
  function Name(s: string): string { s[..Slash(s)] }

  /** One step of the machine: "." and repeated slashes are skipped, ".." takes back what came last. */
  function Push(stack: seq<string>, s: string): seq<string> {
    if Name(s) == "." || (Name(s) == "" && stack != []) then stack
    else if Name(s) == ".." then (if stack == [] then [] else stack[..|stack| - 1])
    else stack + [s]
  }

  function Run(stack: seq<string>, s: seq<string>): seq<string>
    decreases |s|
  {
    if s == [] then stack else Run(Push(stack, s[0]), s[1..])
  }

  function Concat(s: seq<string>): string {
    if s == [] then "" else Concat(s[..|s| - 1]) + s[|s| - 1]
  }

  function Normal(p: string): string { Concat(Run([], Segments(p))) }

  /** The most segments that are ever on the stack. */
  function Deepest(stack: seq<string>, s: seq<string>): nat
    decreases |s|
  {
    if s == [] then |stack| else
      var d := Deepest(Push(stack, s[0]), s[1..]);
      if |stack| > d then |stack| else d
  }

  // ---------- what can be on the stack ----------

  /** A directory: a name and its slash. */
  predicate Dir(s: string) { |s| > 0 && Slash(s) == |s| - 1 }

  /** A segment that stays: its name is neither "." nor "..", and is empty only at the bottom. */
  predicate Kept(s: string, bottom: bool) {
    Name(s) != "." && Name(s) != ".." && (Name(s) == "" ==> bottom)
  }

  predicate AllKept(s: seq<string>) { forall i | 0 <= i < |s| :: Kept(s[i], i == 0) }

  /** Only the last segment may lack a slash, and the empty one stands alone. */
  predicate Stack(t: seq<string>) {
    && AllKept(t)
    && (forall i | 0 <= i < |t| - 1 :: Dir(t[i]))
    && (|t| > 0 ==> Dir(t[|t| - 1]) || '/' !in t[|t| - 1])
    && (|t| > 1 ==> t[|t| - 1] != "")
  }

  predicate Dirs(t: seq<string>) { Stack(t) && (|t| > 0 ==> Dir(t[|t| - 1])) }

  lemma NameFacts(s: string)
    ensures (Dir(s) ==> s == Name(s) + "/") && ('/' !in s ==> Name(s) == s)
  {
    if '/' !in s { SlashNone(s); }
  }

  lemma {:induction false} SlashNone(s: string)
    requires '/' !in s
    ensures Slash(s) == |s|
  {
    if s != "" { SlashNone(s[1..]); }
  }

  lemma {:induction false} SlashOf(s: string, r: string)
    requires Dir(s)
    ensures Slash(s + r) == |s| - 1
  {
    if |s| > 1 {
      assert (s + r)[1..] == s[1..] + r;
      SlashOf(s[1..], r);
    }
  }

  lemma PushKeeps(t: seq<string>, s: string)
    requires Dirs(t) && (Dir(s) || '/' !in s) && (s == "" ==> t == [])
    ensures Stack(Push(t, s)) && (Dir(s) ==> Dirs(Push(t, s)))
  {
    NameFacts(s);
    var u := Push(t, s);
    if |u| > |t| {
      assert u[..|t|] == t;
    }
  }

  lemma {:induction false} RunKeeps(t: seq<string>, p: string)
    requires Dirs(t) && (p == "" ==> t == [])
    ensures Stack(Run(t, Segments(p)))
    decreases |p|
  {
    var k := Slash(p);
    var s := Segments(p);
    if k + 1 >= |p| {
      assert s[0] == p && s[1..] == [];
      assert Run(Push(t, p), []) == Push(t, p);
      PushKeeps(t, p);
    } else {
      SegmentIsDir(p);
      assert s[0] == p[..k + 1] && s[1..] == Segments(p[k + 1..]);
      PushKeeps(t, p[..k + 1]);
      RunKeeps(Push(t, p[..k + 1]), p[k + 1..]);
    }
  }

  lemma {:induction false} SlashAt(s: string, k: nat)
    requires k <= |s| && '/' !in s[..k] && (k < |s| ==> s[k] == '/')
    ensures Slash(s) == k
  {
    if k > 0 {
      assert s[..k][0] == s[0] && s[1..][..k - 1] == s[..k][1..];
      SlashAt(s[1..], k - 1);
    }
  }

  lemma SegmentIsDir(p: string)
    requires Slash(p) < |p|
    ensures Dir(p[..Slash(p) + 1])
  {
    assert p[..Slash(p) + 1][..Slash(p)] == p[..Slash(p)];
    SlashAt(p[..Slash(p) + 1], Slash(p));
  }

  // ---------- cutting what was put together ----------

  lemma {:induction false} ConcatFirst(t: seq<string>)
    requires t != []
    ensures Concat(t) == t[0] + Concat(t[1..])
  {
    var n := |t| - 1;
    if n > 0 {
      ConcatFirst(t[..n]);
      assert t[..n][1..] == t[1..][..n - 1] && t[1..][n - 1] == t[n] && t[..n][0] == t[0];
    }
  }

  lemma {:induction false} SegmentsOf(t: seq<string>)
    requires Cuts(t)
    ensures Segments(Concat(t)) == t
  {
    ConcatFirst(t);
    if |t| == 1 {
      assert Concat(t) == t[0];
      if '/' !in t[0] { SlashNone(t[0]); }
    } else {
      var r := Concat(t[1..]);
      SegmentsOf(t[1..]);
      ConcatLong(t[1..]);
      SlashOf(t[0], r);
      assert (t[0] + r)[..|t[0]|] == t[0] && (t[0] + r)[|t[0]|..] == r;
    }
  }

  lemma ConcatLong(t: seq<string>)
    requires |t| > 0 && t[|t| - 1] != ""
    ensures Concat(t) != ""
  {
  }

  lemma {:induction false} RunStack(t: seq<string>, u: seq<string>)
    requires Stack(t + u)
    ensures Run(t, u) == t + u
    decreases |u|
  {
    if u != [] {
      assert (t + u)[|t|] == u[0] && t + u == t + [u[0]] + u[1..];
      assert Push(t, u[0]) == t + [u[0]];
      RunStack(t + [u[0]], u[1..]);
    } else {
      assert t + u == t;
    }
  }

  // ---------- the results ----------

  /** What a path is rewritten to is rewritten to itself. */
  lemma Idempotent(p: string)
    ensures Normal(Normal(p)) == Normal(p)
  {
    var t := Run([], Segments(p));
    RunKeeps([], p);
    if t == [] {
      assert Segments("") == [""] && Push([], "") == [""] && Run([], [""]) == Run([""], []);
      assert Concat([""]) == "";
    } else {
      SegmentsOf(t);
      assert [] + t == t;
      RunStack([], t);
    }
  }

  /** No "." or "..", and no empty name but before a slash at the start. */
  lemma Clean(p: string)
    ensures Normal(p) != "" ==> AllKept(Segments(Normal(p)))
  {
    var t := Run([], Segments(p));
    RunKeeps([], p);
    if t != [] { SegmentsOf(t); }
  }

  function Total(s: seq<string>): nat { |Concat(s)| }

  lemma {:induction false} RunShortens(t: seq<string>, s: seq<string>)
    ensures Total(Run(t, s)) <= Total(t) + Total(s)
    decreases |s|
  {
    if s != [] {
      var u := Push(t, s[0]);
      assert Total(u) <= Total(t) + |s[0]| by { if |u| > |t| { assert u[..|t|] == t; } }
      RunShortens(u, s[1..]);
      ConcatFirst(s);
    }
  }

  lemma SegmentsIs(p: string)
    ensures var k := Slash(p); if k + 1 >= |p| then Segments(p) == [p] && Concat([p]) == p
      else p == p[..k + 1] + p[k + 1..] && Segments(p)[0] == p[..k + 1] && Segments(p)[1..] == Segments(p[k + 1..])
  {
    hide Slash;
    if Slash(p) + 1 >= |p| { OnlyOne(p); } else { TwoParts(p, Slash(p) + 1, Segments(p[Slash(p) + 1..])); }
  }

  lemma OnlyOne(p: string)
    ensures Concat([p]) == p
  {
    assert [p][..0] == [] && Concat([]) == "";
  }

  lemma TwoParts(p: string, k: nat, r: seq<string>)
    requires k <= |p|
    ensures p == p[..k] + p[k..] && ([p[..k]] + r)[0] == p[..k] && ([p[..k]] + r)[1..] == r
  {
  }

  lemma {:induction false} ConcatSegments(p: string)
    ensures Concat(Segments(p)) == p
    decreases |p|
  {
    hide Slash, Segments, Concat;
    var k := Slash(p);
    SegmentsIs(p);
    if k + 1 < |p| {
      ConcatFirst(Segments(p));
      ConcatSegments(p[k + 1..]);
    }
  }

  lemma NeverLonger(p: string)
    ensures |Normal(p)| <= |p|
  {
    RunShortens([], Segments(p));
    ConcatSegments(p);
  }

  /** `startswith`, on the characters before the final zero. */
  predicate StartsWith(s: string, prefix: string) { |prefix| <= |s| && s[..|prefix|] == prefix }

  lemma AboveIsName(n: string)
    requires n == ".." || StartsWith(n, "../")
    ensures n != "" && Name(Segments(n)[0]) == ".."
  {
    assert n[..2] == ".." && (|n| > 2 ==> n[2] == n[..3][2]);
    SlashAt(n, 2);
    if |n| > 2 { assert n[..3] == "../"; SlashAt("../", 2); }
  }

  /** The loop that takes leading "../" off the requested path never runs. */
  lemma NeverAbove(p: string)
    ensures !StartsWith(Normal(p), "../") && Normal(p) != ".."
  {
    hide *;
    var n := Normal(p);
    if n == ".." || StartsWith(n, "../") {
      AboveIsName(n);
      Clean(p);
      KeptIs(Segments(n));
      assert false;
    }
  }

  lemma KeptIs(s: seq<string>)
    requires AllKept(s) && s != []
    ensures Name(s[0]) != ".."
  {
  }

  lemma {:induction false} DeepestBound(t: seq<string>, s: seq<string>)
    ensures |Run(t, s)| <= Deepest(t, s) <= |t| + |s| && |t| <= Deepest(t, s)
    decreases |s|
  {
    if s != [] { DeepestBound(Push(t, s[0]), s[1..]); }
  }

  // ---------- the laws of the rewriting ----------

  /** A path of whole directories. */
  predicate Whole(p: string) { p == "" || p[|p| - 1] == '/' }

  /** The stack behind whole directories, and what the rest of a path makes of it. */
  function Behind(p: string): seq<string> { if p == "" then [] else Run([], Segments(p)) }

  function Onward(t: seq<string>, q: string): seq<string> { if q == "" then t else Run(t, Segments(q)) }

  lemma {:induction false} RunOn(t: seq<string>, a: seq<string>, b: seq<string>)
    ensures Run(t, a + b) == Run(Run(t, a), b)
    decreases |a|
  {
    if a == [] {
      assert a + b == b;
    } else {
      assert (a + b)[0] == a[0] && (a + b)[1..] == a[1..] + b;
      RunOn(Push(t, a[0]), a[1..], b);
    }
  }

  lemma {:induction false} SegmentsOn(p: string, q: string)
    requires p != "" && Whole(p) && q != ""
    ensures Segments(p + q) == Segments(p) + Segments(q)
    decreases |p|
  {
    hide *;
    SlashInside(p);
    SegmentsIs(p);
    var k := Slash(p);
    var head, rest := p[..k + 1], p[k + 1..];
    Cut(p, k + 1, q);
    SlashAgain(p, q);
    SegmentsIs(p + q);
    if rest == "" {
      Headed(Segments(p + q), Segments(p), [], Segments(q));
    } else {
      WholeRest(p, k + 1);
      SegmentsOn(rest, q);
      Headed(Segments(p + q), Segments(p), Segments(rest), Segments(q));
    }
  }

  lemma Cut(p: string, k: nat, q: string)
    requires k <= |p|
    ensures (p + q)[..k] == p[..k] && (p + q)[k..] == p[k..] + q && (k == |p| ==> p[k..] + q == q && p[..k] == p)
  {
  }

  lemma WholeRest(p: string, k: nat)
    requires k < |p| && Whole(p)
    ensures Whole(p[k..])
  {
  }

  lemma Headed(x: seq<string>, y: seq<string>, r: seq<string>, z: seq<string>)
    requires x != [] && y != [] && x[0] == y[0] && y[1..] == r && x[1..] == r + z
    ensures x == y + z
  {
    assert x == [x[0]] + x[1..] && y == [y[0]] + y[1..];
  }

  lemma SlashAgain(p: string, q: string)
    requires Slash(p) < |p|
    ensures Slash(p + q) == Slash(p)
  {
    assert (p + q)[..Slash(p)] == p[..Slash(p)];
    SlashAt(p + q, Slash(p));
  }

  lemma SlashInside(p: string)
    requires p != "" && Whole(p)
    ensures Slash(p) < |p|
  {
    assert p[|p| - 1] in p && p[..|p|] == p;
  }

  lemma Through(p: string, q: string)
    requires Whole(p)
    ensures Normal(p + q) == Concat(Onward(Behind(p), q))
  {
    hide Segments, Push;
    if p == "" {
      assert p + q == q;
      if q == "" { NothingNormal(); }
    } else if q == "" {
      assert p + q == p;
    } else {
      SegmentsOn(p, q);
      RunOn([], Segments(p), Segments(q));
    }
  }

  lemma NothingNormal()
    ensures Normal("") == "" == Concat([])
  {
    assert Segments("") == [""] && Push([], "") == [""] && Run([], [""]) == Run([""], []);
    assert Concat([""]) == "";
  }

  lemma OneSegment(d: string)
    requires '/' !in d
    ensures Segments(d + "/") == [d + "/"] && Segments(d) == [d] && Name(d + "/") == d && Name(d) == d
  {
    assert (d + "/")[..|d|] == d;
    SlashAt(d + "/", |d|);
    SlashNone(d);
  }

  /** One more name, with or without a slash behind it. */
  lemma BehindNext(p: string, d: string)
    requires Whole(p) && '/' !in d
    ensures Behind(p + d + "/") == Push(Behind(p), d + "/")
    ensures d != "" ==> Normal(p + d) == Concat(Push(Behind(p), d))
  {
    hide Segments, Push;
    OneSegment(d);
    var s := d + "/";
    Unroll(Behind(p), s);
    Unroll(Behind(p), d);
    Through(p, d);
    if p == "" {
      assert p + d + "/" == s;
    } else {
      SegmentsOn(p, s);
      RunOn([], Segments(p), Segments(s));
      assert p + d + "/" == p + s;
    }
  }

  lemma Unroll(t: seq<string>, s: string)
    ensures Run(t, [s]) == Push(t, s)
  {
    assert [s][1..] == [] && Run(Push(t, s), []) == Push(t, s);
  }

  /** Two beginnings that leave the same stack can be exchanged. */
  lemma SameBehind(p: string, r: string, q: string)
    requires Whole(p) && Whole(r) && Behind(p) == Behind(r)
    ensures Normal(p + q) == Normal(r + q)
  {
    Through(p, q);
    Through(r, q);
  }

  lemma PushName(t: seq<string>, d: string, s: string)
    requires '/' !in d && (s == d || s == d + "/")
    ensures d != "" && d != "." && d != ".." ==> Push(t, s) == t + [s]
    ensures d == "." ==> Push(t, s) == t
    ensures d == ".." ==> Push(t, s) == if t == [] then [] else t[..|t| - 1]
    ensures d == "" ==> Push(t, s) == if t == [] then [s] else t
  {
    OneSegment(d);
  }

  /** A ".." takes back the name before it. */
  lemma UpCancels(p: string, d: string, q: string)
    requires Whole(p) && d != "" && '/' !in d && d != "." && d != ".."
    ensures Normal(p + d + "/../" + q) == Normal(p + q)
    ensures Normal(p + d + "/..") == Normal(p)
  {
    hide Segments, Push, Run, Concat, Name, Normal;
    var t := Behind(p);
    BehindNext(p, d);
    PushName(t, d, d + "/");
    BehindNext(p + d + "/", "..");
    PushName(t + [d + "/"], "..", "../");
    PushName(t + [d + "/"], "..", "..");
    Taken(t, d + "/");
    UpJoined(p + d);
    SameBehind(p + d + "/../", p, q);
    Through(p, "");
    Joined(p, "", "");
  }

  lemma Taken(t: seq<string>, s: string)
    ensures (t + [s])[..|t + [s]| - 1] == t
  {
  }

  lemma UpJoined(x: string)
    ensures x + "/" + ".." == x + "/.." && x + "/" + ".." + "/" == x + "/../"
  {
    Joined(x, "/", "..");
    Joined(x, "/..", "/");
    assert "/" + ".." == "/.." && "/.." + "/" == "/../";
  }

  lemma Joined(a: string, b: string, c: string)
    ensures a + b + c == a + (b + c) && a + "" == a
  {
  }

  /** With nothing left to take back a ".." is skipped; the slash of an absolute path is taken back as well. */
  lemma UpFromNothing(p: string, q: string)
    requires Whole(p) && Normal(p) == ""
    ensures Normal(p + "../" + q) == Normal(q)
    ensures Normal("/../" + q) == Normal(q)
  {
    hide Segments, Push, Run, Concat, Name, Normal;
    NoneBehind(p);
    BehindNext(p, "..");
    PushName([], "..", "../");
    Joined(p, "..", "/");
    SameBehind(p + "../", "", q);
    BehindNext("", "");
    PushName([], "", "/");
    BehindNext("/", "..");
    PushName(["/"], "..", "../");
    assert "" + "" + "/" == "/" && "/" + ".." + "/" == "/../" && ["/"][..0] == [];
    SameBehind("/../", "", q);
    assert "" + q == q;
  }

  /** A "." is skipped. */
  lemma HereSkipped(p: string, q: string)
    requires Whole(p)
    ensures Normal(p + "./" + q) == Normal(p + q)
    ensures Normal(p + ".") == Normal(p)
  {
    hide Segments, Push, Run, Concat, Name, Normal;
    BehindNext(p, ".");
    PushName(Behind(p), ".", "./");
    PushName(Behind(p), ".", ".");
    Joined(p, ".", "/");
    SameBehind(p + "./", p, q);
    Through(p, "");
  }

  /** So is a repeated slash; but behind directories that came to nothing, a slash makes the path absolute. */
  lemma SlashSkipped(p: string, q: string)
    requires Whole(p)
    ensures Normal(p + "/" + q) == if Normal(p) == "" then Normal("/" + q) else Normal(p + q)
  {
    hide Segments, Push, Run, Concat, Name, Normal;
    BehindNext(p, "");
    PushName(Behind(p), "", "/");
    Joined(p, "", "/");
    assert "" + "/" == "/";
    NoneBehind(p);
    BehindNext("", "");
    if Behind(p) == [] {
      SameBehind(p + "/", "/", q);
    } else {
      SameBehind(p + "/", p, q);
    }
  }

  lemma NoneBehind(p: string)
    requires Whole(p)
    ensures Normal(p) == "" <==> Behind(p) == []
  {
    hide Segments, Push, Name, Slash;
    Through(p, "");
    assert p + "" == p;
    if p != "" {
      RunKeeps([], p);
      WholeDirs([], p);
      if Behind(p) != [] { ConcatLong(Behind(p)); }
    }
  }

  lemma {:induction false} WholeDirs(t: seq<string>, p: string)
    requires Dirs(t) && Whole(p) && p != ""
    ensures Dirs(Run(t, Segments(p)))
    decreases |p|
  {
    var k := Slash(p);
    SlashInside(p);
    SegmentIsDir(p);
    assert p[..k + 1] == p || k + 1 < |p|;
    PushKeeps(t, p[..k + 1]);
    if k + 1 < |p| {
      assert Segments(p)[1..] == Segments(p[k + 1..]);
      WholeDirs(Push(t, p[..k + 1]), p[k + 1..]);
    } else {
      Unroll(t, p);
    }
  }

  /** The paths that stay as they are: those whose names are all kept. */
  lemma FixedPoints(p: string)
    ensures Normal(p) == p <==> AllKept(Segments(p))
  {
    hide *;
    if p == "" {
      NothingNormal();
      NothingKept();
    } else if Normal(p) == p {
      Clean(p);
    }
    if AllKept(Segments(p)) { KeptStays(p); }
  }

  lemma NothingKept()
    ensures AllKept(Segments(""))
  {
  }

  lemma KeptStays(p: string)
    requires AllKept(Segments(p))
    ensures Normal(p) == p
  {
    hide Segments, AllKept, Run, Concat, Dir;
    SegmentShape(p);
    assert [] + Segments(p) == Segments(p);
    RunStack([], Segments(p));
    ConcatSegments(p);
  }

  /** What a path can be cut into. */
  predicate Cuts(s: seq<string>) {
    && |s| > 0 && (forall i | 0 <= i < |s| - 1 :: Dir(s[i])) && (Dir(s[|s| - 1]) || '/' !in s[|s| - 1])
    && (|s| > 1 ==> s[|s| - 1] != "")
  }

  lemma {:induction false} SegmentShape(p: string)
    ensures Cuts(Segments(p)) && (p != "" ==> Segments(p)[0] != "")
    decreases |p|
  {
    hide Slash, Segments, Dir, Cuts;
    var k := Slash(p);
    SegmentsIs(p);
    if k < |p| { SegmentIsDir(p); }
    if k + 1 < |p| {
      SegmentShape(p[k + 1..]);
      MoreCuts(Segments(p), Segments(p[k + 1..]));
    } else {
      assert (k < |p| ==> p[..k + 1] == p) && (k == |p| ==> p[..k] == p);
      OneCut(p);
    }
  }

  lemma OneCut(p: string)
    requires Dir(p) || '/' !in p
    ensures Cuts([p])
  {
  }

  lemma MoreCuts(s: seq<string>, r: seq<string>)
    requires |s| > 0 && s[1..] == r && Dir(s[0]) && Cuts(r) && r[0] != ""
    ensures Cuts(s)
  {
    hide Dir;
    forall i | 0 < i < |s| ensures s[i] == r[i - 1] {}
  }

  // ---------- the buffer and the index stack ----------

  method FindSlash(path: string, from: nat) returns (ptr: nat)
    requires from <= |path|
    ensures ptr == from + Slash(path[from..])
  {
    ptr := from;
    while ptr < |path| && path[ptr] != '/'
      invariant from <= ptr <= |path| && '/' !in path[from..ptr]
    {
      assert path[from..ptr + 1] == path[from..ptr] + [path[ptr]];
      ptr := ptr + 1;
    }
    assert path[from..][..ptr - from] == path[from..ptr];
    SlashAt(path[from..], ptr - from);
  }

  /** The buffer starts with the stack put together, and index k is where segment k starts. */
  ghost predicate Holds(buffer: seq<char>, indices: seq<nat>, t: seq<string>) {
    && |t| < |indices| && (forall k | 0 <= k <= |t| :: indices[k] == Total(t[..k]))
    && Total(t) < |buffer| && buffer[..Total(t)] == Concat(t)
  }

  lemma HoldsPop(buffer: seq<char>, indices: seq<nat>, t: seq<string>)
    requires Holds(buffer, indices, t) && t != []
    ensures Holds(buffer, indices, t[..|t| - 1])
  {
    var u := t[..|t| - 1];
    forall k | 0 <= k <= |u| ensures indices[k] == Total(u[..k]) { assert u[..k] == t[..k]; }
    assert u[..|u|] == u;
    assert buffer[..Total(u)] == buffer[..Total(t)][..Total(u)];
  }

  lemma HoldsPush(buffer: seq<char>, indices: seq<nat>, t: seq<string>, s: string, buffer': seq<char>, indices': seq<nat>)
    requires Holds(buffer, indices, t) && |t| + 1 < |indices| && Total(t) + |s| < |buffer|
    requires |buffer'| == |buffer| && buffer'[..Total(t)] == buffer[..Total(t)] && buffer'[Total(t)..Total(t) + |s|] == s
    requires indices' == indices[|t| + 1 := Total(t) + |s|]
    ensures Holds(buffer', indices', t + [s]) && Total(t + [s]) == Total(t) + |s|
  {
    var u := t + [s];
    assert u[..|t|] == t && u[..|u|] == u;
    forall k | 0 <= k <= |u| ensures indices'[k] == Total(u[..k]) {
      if k <= |t| { assert u[..k] == t[..k]; }
    }
    assert buffer'[..Total(u)] == buffer'[..Total(t)] + buffer'[Total(t)..Total(t) + |s|];
  }

  lemma HoldsEnd(buffer: seq<char>, indices: seq<nat>, t: seq<string>, c: char)
    requires Holds(buffer, indices, t)
    ensures indices[|t|] == Total(t) && Holds(buffer[Total(t) := c], indices, t)
  {
    assert t[..|t|] == t;
    assert buffer[Total(t) := c][..Total(t)] == buffer[..Total(t)];
  }

  /** The next segment, and its name. */
  lemma NextSegment(path: string, at: nat)
    requires at <= |path|
    ensures var k, r := Slash(path[at..]), Segments(path[at..]);
      var ptr := if at + k < |path| then at + k + 1 else at + k;
      && r[0] == path[at..ptr] && Name(r[0]) == path[at..at + k]
      && (ptr < |path| ==> r[1..] == Segments(path[ptr..])) && (ptr >= |path| ==> r[1..] == [])
  {
    hide Slash, Segments, Concat;
    var rest := path[at..];
    var k := Slash(rest);
    var ptr := if at + k < |path| then at + k + 1 else at + k;
    SegmentsIs(rest);
    Slices(path, at, ptr - at);
    Slices(path, at, k);
    NameOf(path[at..ptr], k);
    Shorter(path, at, ptr, k);
  }

  lemma Slices(path: string, at: nat, j: nat)
    requires at + j <= |path|
    ensures path[at..][..j] == path[at..at + j] && path[at..][j..] == path[at + j..]
    ensures at + j == |path| ==> path[at..] == path[at..at + j]
  {
  }

  lemma Shorter(path: string, at: nat, ptr: nat, k: nat)
    requires at + k <= ptr <= |path|
    ensures path[at..ptr][..k] == path[at..at + k]
  {
  }

  lemma NameOf(s: string, k: nat)
    requires k <= |s| && '/' !in s[..k] && (k < |s| ==> s[k] == '/')
    ensures Name(s) == s[..k]
  {
    SlashAt(s, k);
  }

  lemma Names(s: string)
    ensures (|s| == 1 && s[0] == '.' <==> s == ".") && (|s| == 2 && s[0] == '.' && s[1] == '.' <==> s == "..")
    ensures |s| == 0 <==> s == ""
  {
  }

  /** `strncpy`, of characters that are not zero. */
  method Copy(buffer: array<char>, to: nat, s: string)
    requires to + |s| <= buffer.Length
    modifies buffer
    ensures buffer[..to] == old(buffer[..to]) && buffer[to..to + |s|] == s
  {
    for k := 0 to |s|
      invariant buffer[..to] == old(buffer[..to]) && buffer[to..to + k] == s[..k]
    {
      buffer[to + k] := s[k];
    }
  }

  method PushPart(buffer: array<char>, indices: array<nat>, i: nat, part: string, ghost t: seq<string>)
    requires buffer.Length > Total(t) + |part| && Holds(buffer[..], indices[..], t) && i == |t| && i + 1 < indices.Length
    modifies buffer, indices
    ensures Holds(buffer[..], indices[..], t + [part]) && Total(t + [part]) == Total(t) + |part|
  {
    hide Total, Concat;
    ghost var b, x := buffer[..], indices[..];
    assert indices[i] == Total(t) by { HoldsEnd(b, x, t, ' '); }
    Copy(buffer, indices[i], part);
    indices[i + 1] := indices[i] + |part|;
    HoldsPush(b, x, t, part, buffer[..], indices[..]);
  }

  /** One turn of the loop: i is the height of the stack, ptr where the next segment starts. */
  method Step(buffer: array<char>, indices: array<nat>, height: nat, path: string, at: nat, ghost t: seq<string>)
    returns (ok: bool, i: nat, ptr: nat)
    requires at <= |path| < buffer.Length && Total(t) <= at && Holds(buffer[..], indices[..], t) && height == |t|
    modifies buffer, indices
    ensures ok <==> |Push(t, Segments(path[at..])[0])| < indices.Length
    ensures ok ==> at <= ptr <= |path| && ptr == at + |Segments(path[at..])[0]|
    ensures ok && ptr < |path| ==> ptr > at && Segments(path[at..])[1..] == Segments(path[ptr..])
    ensures ok && ptr >= |path| ==> Segments(path[at..])[1..] == []
    ensures ok ==> var u := Push(t, Segments(path[at..])[0]);
      i == |u| && Holds(buffer[..], indices[..], u) && Total(u) <= ptr && indices[i] == Total(u) && buffer[Total(u)] == '\0'
  {
    hide Slash, Segments, Holds, Concat, Name, Total;
    NextSegment(path, at);
    ptr := FindSlash(path, at);
    i := height;
    ghost var u := t;
    ghost var name := path[at..ptr];
    Names(name);
    var isPart := true;
    if ptr - at == 1 && path[at] == '.' {
      isPart := false;
    } else if ptr - at == 2 && path[at] == '.' && path[at + 1] == '.' {
      if i > 0 {
        i := i - 1;
        HoldsPop(buffer[..], indices[..], t);
        ShorterTotal(t);
        u := t[..|t| - 1];
      }
      isPart := false;
    } else if ptr - at == 0 && i != 0 {
      isPart := false;
    }
    if ptr < |path| { ptr := ptr + 1; }
    if isPart {
      if i + 1 >= indices.Length { return false, i, ptr; }
      PushPart(buffer, indices, i, path[at..ptr], t);
      u := t + [path[at..ptr]];
      i := i + 1;
    }
    HoldsEnd(buffer[..], indices[..], u, '\0');
    Fits(buffer[..], indices[..], u);
    buffer[indices[i]] := '\0';
    ok := true;
  }

  lemma ShorterTotal(t: seq<string>)
    requires t != []
    ensures Total(t[..|t| - 1]) <= Total(t)
  {
  }

  lemma Fits(buffer: seq<char>, indices: seq<nat>, t: seq<string>)
    requires Holds(buffer, indices, t)
    ensures |t| < |indices| && Total(t) < |buffer|
  {
  }

  /** `normalize_path`: n is the length of the resulting string. `ok` tells that no write left the stack of
      indices, which has room for its bottom and 99 segments. */
  method NormalizePath(buffer: array<char>, path: string) returns (ok: bool, n: nat)
    requires buffer.Length > |path| && '\0' !in path
    modifies buffer
    ensures ok <==> Deepest([], Segments(path)) < MAX_PATH_INDICES
    ensures ok ==> n < buffer.Length && buffer[..n] == Normal(path) && buffer[n] == '\0'
  {
    var indices := new nat[MAX_PATH_INDICES](k => 0);
    var i, at := 0, 0;
    ghost var t: seq<string> := [];
    assert path[0..] == path;
    while true
      invariant at <= |path| && i == |t| && Holds(buffer[..], indices[..], t) && fresh(indices) && Total(t) <= at
      invariant Run(t, Segments(path[at..])) == Run([], Segments(path))
      invariant Deepest(t, Segments(path[at..])) < MAX_PATH_INDICES <==> Deepest([], Segments(path)) < MAX_PATH_INDICES
      decreases |path| - at
    {
      ghost var r := Segments(path[at..]);
      Unfold(t, r);
      var ptr;
      ok, i, ptr := Step(buffer, indices, i, path, at, t);
      if !ok { return false, 0; }
      t := Push(t, r[0]);
      if ptr >= |path| { break; }
      at := ptr;
    }
    n := indices[i];
  }

  lemma Unfold(t: seq<string>, r: seq<string>)
    requires r != []
    ensures Run(t, r) == Run(Push(t, r[0]), r[1..]) && Run(Push(t, r[0]), []) == Push(t, r[0])
    ensures var d := Deepest(Push(t, r[0]), r[1..]); Deepest(t, r) == (if |t| > d then |t| else d) && |Push(t, r[0])| <= d
    ensures Deepest(Push(t, r[0]), []) == |Push(t, r[0])|
  {
    DeepestBound(Push(t, r[0]), r[1..]);
  }

  /** k directories in a row. */
  function Nested(k: nat): string { if k == 0 then "" else "a/" + Nested(k - 1) }

  lemma NestedParts(k: nat)
    requires k > 0
    ensures Segments(Nested(k)) == ["a/"] + if k == 1 then [] else Segments(Nested(k - 1))
  {
    var p := Nested(k);
    var r := Nested(k - 1);
    assert p[..1] == "a" && p[..2] == "a/" && p[2..] == r;
    SlashAt(p, 1);
    if k == 1 {
      assert p == "a/" && Segments(p) == [p];
    } else {
      assert |r| >= 2 && Segments(p) == [p[..2]] + Segments(p[2..]);
    }
  }

  lemma {:induction false} NestedDepth(t: seq<string>, k: nat)
    requires k > 0
    ensures Deepest(t, Segments(Nested(k))) == |t| + k
    decreases k
  {
    hide Nested, Segments, Push, Run;
    NestedParts(k);
    PushDir(t);
    var r := Segments(Nested(k));
    Unfold(t, r);
    if k == 1 {
      assert r[1..] == [];
    } else {
      assert r[1..] == Segments(Nested(k - 1));
      NestedDepth(t + ["a/"], k - 1);
    }
  }

  lemma PushDir(t: seq<string>)
    ensures Push(t, "a/") == t + ["a/"]
  {
    assert "a/"[..1] == "a";
    SlashAt("a/", 1);
  }

  /** A path that the stack of indices cannot hold. */
  lemma TooDeep()
    ensures Deepest([], Segments(Nested(MAX_PATH_INDICES))) >= MAX_PATH_INDICES
  {
    hide Nested, Segments, Deepest;
    NestedDepth([], MAX_PATH_INDICES);
  }
}
