/** Frames on the byte stream: a type word, then a body whose size the type decides. The reader gets
    the stream in whatever chunks the connection delivers. */
module Framing {
  import opened MsgCore

  const RESP: int := 1
  const PACK: int := 2
  const MAX_BODY: nat := 8192

  datatype Raw = Raw(typ: int, body: Bytes)

  function Size(typ: int): (n: nat)
    ensures n % 4 == 0 && 0 < n <= MAX_BODY
  {
    if typ == PACK then 8192 else 8
  }

  predicate Known(typ: int) { typ == RESP || typ == PACK }

  predicate Whole(f: Raw) { Known(f.typ) && |f.body| == Size(f.typ) }

  /** A type word as the little-endian machine stores and loads it. */
  function TypeWord(typ: int): Bytes
    requires Known(typ)
  {
    [typ as Byte, 0, 0, 0]
  }

  function Load(w: Bytes): int
    requires |w| >= 4
  {
    w[0] as int + 256 * (w[1] as int) + 65536 * (w[2] as int) + 16777216 * (w[3] as int)
  }

  function Encode(f: Raw): Bytes
    requires Whole(f)
  {
    TypeWord(f.typ) + f.body
  }

  predicate AllWhole(fs: seq<Raw>) { forall i | 0 <= i < |fs| :: Whole(fs[i]) }

  function Stream(fs: seq<Raw>): Bytes
    requires AllWhole(fs)
  {
    if fs == [] then [] else Encode(fs[0]) + Stream(fs[1..])
  }

  // ---------- the reader ----------

  /** `typ` is zero between frames; `got` is the part of the body that has arrived. */
  datatype Partial = Partial(typ: int, got: Bytes)

  datatype Outcome = Running(st: Partial, out: seq<Raw>) | Aborted

  const IDLE := Partial(0, [])

  predicate InFrame(st: Partial) { st.typ != 0 ==> Known(st.typ) && |st.got| < Size(st.typ) }

  predicate Sound(st: Partial) { InFrame(st) && (st.typ == 0 ==> st.got == []) }

  /** One call of `msg_switch_read` with n received bytes at the start of `mem`. The rest of `mem` is
      whatever lies behind them: the code loads a whole type word even when fewer bytes are left, and
      compares a negative count as if it were unsigned. */
  function Take(st: Partial, mem: Bytes, n: int): (r: Outcome)
    requires Sound(st) && (n > 0 ==> |mem| >= n + 3 + MAX_BODY)
    ensures r.Running? ==> Sound(r.st)
    decreases if n > 0 then n else 0
  {
    if n <= 0 then Running(st, []) else
    var typ := if st.typ == 0 then Load(mem) else st.typ;
    var skip := if st.typ == 0 then 4 else 0;
    if !Known(typ) then Aborted else
    var need := Size(typ) - |st.got|;
    var used := if 0 <= n - skip < need then n - skip else need;
    var got := st.got + mem[skip..skip + used];
    if |got| < Size(typ) then Running(Partial(typ, got), [])
    else After(Raw(typ, got), Take(IDLE, mem[skip + used..], n - skip - used))
  }

  function After(f: Raw, o: Outcome): Outcome {
    match o
    case Running(st, out) => Running(st, [f] + out)
    case Aborted => Aborted
  }

  /** Successive calls, one per chunk; `junk` lies behind the bytes of each. */
  function TakeAll(st: Partial, chunks: seq<Bytes>, junk: Bytes): (r: Outcome)
    requires Sound(st) && |junk| >= 3 + MAX_BODY
    ensures r.Running? ==> Sound(r.st)
    decreases |chunks|
  {
    if chunks == [] then Running(st, []) else
    match Take(st, chunks[0] + junk, |chunks[0]|)
    case Aborted => Aborted
    case Running(st1, out) => Before(out, TakeAll(st1, chunks[1..], junk))
  }

  function Before(out: seq<Raw>, o: Outcome): Outcome {
    match o
    case Running(st, more) => Running(st, out + more)
    case Aborted => Aborted
  }

  function Concat(chunks: seq<Bytes>): Bytes { if chunks == [] then [] else chunks[0] + Concat(chunks[1..]) }

  // ---------- what should come out ----------

  /** Whether the first pos bytes of the stream end inside a type word. */
  predicate CutsWord(fs: seq<Raw>, pos: nat) {
    if fs == [] || pos == 0 then false
    else if pos < 4 then true
    else if pos < 4 + Size(fs[0].typ) then false
    else CutsWord(fs[1..], pos - 4 - Size(fs[0].typ))
  }

  /** The frames completed by the first pos bytes, and the one in progress. */
  function Parsed(fs: seq<Raw>, pos: nat): (r: (seq<Raw>, Partial))
    requires AllWhole(fs) && !CutsWord(fs, pos)
    ensures Sound(r.1)
  {
    if fs == [] || pos == 0 then ([], IDLE)
    else if pos < 4 + Size(fs[0].typ) then ([], Partial(fs[0].typ, fs[0].body[..pos - 4]))
    else var (out, st) := Parsed(fs[1..], pos - 4 - Size(fs[0].typ)); ([fs[0]] + out, st)
  }

  /** Whether some chunk ends inside a type word; pos bytes came before. */
  predicate SplitsWord(fs: seq<Raw>, pos: nat, chunks: seq<Bytes>)
    decreases |chunks|
  {
    chunks != [] && (CutsWord(fs, pos + |chunks[0]|) || SplitsWord(fs, pos + |chunks[0]|, chunks[1..]))
  }

  const FILL: Byte := 255

  predicate AllFill(junk: Bytes) { forall b | b in junk :: b == FILL }

  lemma {:induction false} ParsedAll(fs: seq<Raw>)
    requires AllWhole(fs)
    ensures !CutsWord(fs, |Stream(fs)|) && Parsed(fs, |Stream(fs)|) == (fs, IDLE)
  {
    if fs != [] {
      ParsedAll(fs[1..]);
      assert fs == [fs[0]] + fs[1..];
    }
  }

  lemma LoadType(typ: int, rest: Bytes)
    requires Known(typ)
    ensures Load(TypeWord(typ) + rest) == typ
  {
  }

  /** Part of a type word, completed by fill bytes, is no type. */
  lemma LoadCut(typ: int, k: nat, rest: Bytes)
    requires Known(typ) && 0 < k < 4 && |rest| >= 4 && (forall i | 0 <= i < 4 :: rest[i] == FILL)
    ensures !Known(Load(TypeWord(typ)[..k] + rest))
  {
    var w := TypeWord(typ)[..k] + rest;
    assert w[3] == rest[3 - k] == FILL;
  }

  /** The frame in progress takes its share of the chunk from q0 on, and the next ones the rest. */
  lemma {:induction false} TakeChunk(fs: seq<Raw>, p: nat, q: nat, junk: Bytes)
    requires AllWhole(fs) && p <= q <= |Stream(fs)| && !CutsWord(fs, p) && |junk| >= 3 + MAX_BODY
    ensures !CutsWord(fs, q) ==>
      var o := Take(Parsed(fs, p).1, Stream(fs)[p..q] + junk, q - p);
      o.Running? && o.st == Parsed(fs, q).1 && Parsed(fs, p).0 + o.out == Parsed(fs, q).0
    ensures CutsWord(fs, q) && AllFill(junk) ==> Take(Parsed(fs, p).1, Stream(fs)[p..q] + junk, q - p) == Aborted
    decreases |fs|, 1
  {
    if q == p {
    } else if p >= 4 + Size(fs[0].typ) {
      SkipFrame(fs, p, q, junk);
    } else {
      TakeFirst(fs, p, q, junk);
    }
  }

  lemma PastFirst(fs: seq<Raw>, p: nat)
    requires AllWhole(fs) && fs != [] && p >= 4 + Size(fs[0].typ)
    ensures var len := 4 + Size(fs[0].typ);
      && CutsWord(fs, p) == CutsWord(fs[1..], p - len)
      && (!CutsWord(fs, p) ==>
          && Parsed(fs, p).1 == Parsed(fs[1..], p - len).1
          && Parsed(fs, p).0 == [fs[0]] + Parsed(fs[1..], p - len).0)
  {
  }

  lemma FirstFrame(fs: seq<Raw>)
    requires AllWhole(fs) && fs != []
    ensures var (f, s) := (fs[0], Stream(fs)); var len := 4 + Size(f.typ);
      && |s| == len + |Stream(fs[1..])|
      && s[..4] == TypeWord(f.typ) && s[4..len] == f.body && s[len..] == Stream(fs[1..])
  {
    var f := fs[0];
    assert |Encode(f)| == 4 + Size(f.typ) && Encode(f)[..4] == TypeWord(f.typ) && Encode(f)[4..] == f.body;
    assert Stream(fs) == Encode(f) + Stream(fs[1..]);
    hide Encode, TypeWord;
  }

  lemma Slices<T>(s: seq<T>, a: nat, b: nat, i: nat, j: nat)
    requires i <= j && a + j <= b <= |s|
    ensures s[a..b][i..j] == s[a + i..a + j]
  {
    var t := s[a..b];
    forall k | 0 <= k < j - i
      ensures t[i..j][k] == s[a + i..a + j][k]
    {
      assert t[i..j][k] == t[i + k] == s[a + (i + k)];
    }
  }

  lemma {:induction false} SkipFrame(fs: seq<Raw>, p: nat, q: nat, junk: Bytes)
    requires AllWhole(fs) && fs != [] && 4 + Size(fs[0].typ) <= p < q <= |Stream(fs)| && !CutsWord(fs, p) && |junk| >= 3 + MAX_BODY
    ensures !CutsWord(fs, q) ==>
      var o := Take(Parsed(fs, p).1, Stream(fs)[p..q] + junk, q - p);
      o.Running? && o.st == Parsed(fs, q).1 && Parsed(fs, p).0 + o.out == Parsed(fs, q).0
    ensures CutsWord(fs, q) && AllFill(junk) ==> Take(Parsed(fs, p).1, Stream(fs)[p..q] + junk, q - p) == Aborted
    decreases |fs|, 0
  {
    hide Take, Parsed, CutsWord, Stream, TypeWord, Whole, Sound;
    var len := 4 + Size(fs[0].typ);
    PastFirst(fs, p);
    PastFirst(fs, q);
    FirstFrame(fs);
    Slices(Stream(fs), len, |Stream(fs)|, p - len, q - len);
    assert Stream(fs)[len..|Stream(fs)|] == Stream(fs)[len..];
    TakeChunk(fs[1..], p - len, q - len, junk);
    if !CutsWord(fs, q) {
      var o := Take(Parsed(fs, p).1, Stream(fs)[p..q] + junk, q - p);
      assert [fs[0]] + Parsed(fs[1..], p - len).0 + o.out == [fs[0]] + (Parsed(fs[1..], p - len).0 + o.out);
    }
  }

  /** Take, once the type of the frame in progress is known. */
  lemma TakeBody(st: Partial, mem: Bytes, n: int, typ: int)
    requires Sound(st) && n > 0 && |mem| >= n + 3 + MAX_BODY && Known(typ)
    requires if st.typ == 0 then n >= 4 && Load(mem) == typ else st.typ == typ
    ensures var skip := if st.typ == 0 then 4 else 0;
      var need := Size(typ) - |st.got|;
      Take(st, mem, n) ==
        if n - skip < need then Running(Partial(typ, st.got + mem[skip..n]), [])
        else After(Raw(typ, st.got + mem[skip..skip + need]), Take(IDLE, mem[skip + need..], n - skip - need))
  {
  }

  lemma {:induction false} TakeFirst(fs: seq<Raw>, p: nat, q: nat, junk: Bytes)
    requires AllWhole(fs) && fs != [] && p < 4 + Size(fs[0].typ) && p < q <= |Stream(fs)| && !CutsWord(fs, p) && |junk| >= 3 + MAX_BODY
    ensures !CutsWord(fs, q) ==>
      var o := Take(Parsed(fs, p).1, Stream(fs)[p..q] + junk, q - p);
      o.Running? && o.st == Parsed(fs, q).1 && Parsed(fs, p).0 + o.out == Parsed(fs, q).0
    ensures CutsWord(fs, q) && AllFill(junk) ==> Take(Parsed(fs, p).1, Stream(fs)[p..q] + junk, q - p) == Aborted
    decreases |fs|, 0
  {
    hide Take, Stream, Load, TypeWord, CutsWord, Parsed, Sound;
    WithinFirst(fs, p);
    FirstFrame(fs);
    if q < 4 {
      WithinFirst(fs, q);
      LoadCutHere(fs, q, junk);
      CutAborts(fs, q, junk);
    } else {
      var f := fs[0];
      var len := 4 + Size(f.typ);
      FirstBytes(fs, p, q, junk);
      TakeBody(Parsed(fs, p).1, Stream(fs)[p..q] + junk, q - p, f.typ);
      if q >= len {
        PastFirst(fs, q);
        Origin(fs[1..]);
        TakeChunk(fs[1..], 0, q - len, junk);
      } else {
        WithinFirst(fs, q);
      }
    }
  }

  lemma Origin(fs: seq<Raw>)
    requires AllWhole(fs)
    ensures !CutsWord(fs, 0) && Parsed(fs, 0) == ([], IDLE)
  {
  }

  lemma WithinFirst(fs: seq<Raw>, p: nat)
    requires AllWhole(fs) && fs != [] && p < 4 + Size(fs[0].typ)
    ensures CutsWord(fs, p) == (0 < p < 4)
    ensures !CutsWord(fs, p) ==> Parsed(fs, p) == ([], if p == 0 then IDLE else Partial(fs[0].typ, fs[0].body[..p - 4]))
  {
  }

  lemma CutAborts(fs: seq<Raw>, q: nat, junk: Bytes)
    requires AllWhole(fs) && fs != [] && 0 < q < 4 && |junk| >= 3 + MAX_BODY && |Stream(fs)| >= 4
    ensures !Known(Load(Stream(fs)[0..q] + junk)) ==> Take(IDLE, Stream(fs)[0..q] + junk, q) == Aborted
  {
    hide Stream, Load;
  }

  /** What the reader finds in a chunk that reaches past the type word of the first frame. */
  lemma FirstBytes(fs: seq<Raw>, p: nat, q: nat, junk: Bytes)
    requires AllWhole(fs) && fs != [] && p < 4 + Size(fs[0].typ) && p < q <= |Stream(fs)| && !CutsWord(fs, p) && q >= 4
    ensures var (f, st, mem) := (fs[0], Parsed(fs, p).1, Stream(fs)[p..q] + junk);
      var len := 4 + Size(f.typ);
      var skip := if p == 0 then 4 else 0;
      && (p == 0 ==> |mem| >= 4 && Load(mem) == f.typ) && (p > 0 ==> st.typ == f.typ && |st.got| == p - 4)
      && (q < len ==> st.got + mem[skip..q - p] == f.body[..q - 4])
      && (q >= len ==> st.got + mem[skip..len - p] == f.body && mem[len - p..] == Stream(fs[1..])[0..q - len] + junk)
  {
    hide *;
    var f := fs[0];
    var len, s := 4 + Size(f.typ), Stream(fs);
    FirstFrame(fs);
    KnownFirst(fs);
    NotInWord(fs, p);
    WithinFirst(fs, p);
    if p == 0 {
      Start(s, q, junk);
      LoadType(f.typ, s[4..q] + junk);
    }
    if q < len { InBody(s, len, p, q, junk); } else { PastBody(s, len, p, q, junk); }
  }

  lemma KnownFirst(fs: seq<Raw>)
    requires AllWhole(fs) && fs != []
    ensures Known(fs[0].typ) && |fs[0].body| == Size(fs[0].typ) && IDLE.got == []
  {
  }

  lemma Start(s: Bytes, q: nat, junk: Bytes)
    requires 4 <= q <= |s|
    ensures s[0..q] + junk == s[..4] + (s[4..q] + junk)
  {
  }

  /** Body bytes before and in a chunk that ends inside the frame. */
  lemma InBody(s: Bytes, len: nat, p: nat, q: nat, junk: Bytes)
    requires 4 <= q < len <= |s| && p < q && (p == 0 || p >= 4)
    ensures var (body, mem, skip) := (s[4..len], s[p..q] + junk, if p == 0 then 4 else 0);
      body[..p + skip - 4] + mem[skip..q - p] == body[..q - 4]
  {
    var skip := if p == 0 then 4 else 0;
    assert (s[p..q] + junk)[skip..q - p] == s[p + skip..q];
    assert s[4..len][..p + skip - 4] == s[4..p + skip] && s[4..len][..q - 4] == s[4..q];
  }

  /** The same in a chunk that ends behind it. */
  lemma PastBody(s: Bytes, len: nat, p: nat, q: nat, junk: Bytes)
    requires 4 <= len <= q <= |s| && p < len && (p == 0 || p >= 4)
    ensures var (body, mem, skip) := (s[4..len], s[p..q] + junk, if p == 0 then 4 else 0);
      body[..p + skip - 4] + mem[skip..len - p] == body && mem[len - p..] == s[len..][0..q - len] + junk
  {
    var skip := if p == 0 then 4 else 0;
    assert (s[p..q] + junk)[skip..len - p] == s[p + skip..len];
    assert s[4..len][..p + skip - 4] == s[4..p + skip];
    assert s[len..][0..q - len] == s[len..q];
  }

  lemma NotInWord(fs: seq<Raw>, p: nat)
    requires fs != [] && !CutsWord(fs, p)
    ensures p == 0 || p >= 4
  {
  }

  lemma LoadCutHere(fs: seq<Raw>, q: nat, junk: Bytes)
    requires AllWhole(fs) && fs != [] && 0 < q < 4 && |junk| >= 3 + MAX_BODY
    ensures |Stream(fs)| >= 4
    ensures AllFill(junk) ==> !Known(Load(Stream(fs)[0..q] + junk))
  {
    assert Stream(fs) == TypeWord(fs[0].typ) + (fs[0].body + Stream(fs[1..]));
    assert Stream(fs)[0..q] == TypeWord(fs[0].typ)[..q];
    if AllFill(junk) {
      assert forall i | 0 <= i < 4 :: junk[i] in junk;
      LoadCut(fs[0].typ, q, junk);
    }
  }

  /** Reading chunk after chunk, from position pos on. */
  lemma {:induction false} TakeChunks(fs: seq<Raw>, pos: nat, chunks: seq<Bytes>, junk: Bytes)
    requires AllWhole(fs) && !CutsWord(fs, pos) && |junk| >= 3 + MAX_BODY
    requires pos + |Concat(chunks)| <= |Stream(fs)| && Stream(fs)[pos..pos + |Concat(chunks)|] == Concat(chunks)
    ensures !SplitsWord(fs, pos, chunks) ==>
      var o := TakeAll(Parsed(fs, pos).1, chunks, junk);
      var end := pos + |Concat(chunks)|;
      !CutsWord(fs, end) && o.Running? && o.st == Parsed(fs, end).1 && Parsed(fs, pos).0 + o.out == Parsed(fs, end).0
    ensures SplitsWord(fs, pos, chunks) && AllFill(junk) ==> TakeAll(Parsed(fs, pos).1, chunks, junk) == Aborted
    decreases |chunks|
  {
    hide Take, CutsWord, Parsed, Stream;
    if chunks != [] {
      var mid := pos + |chunks[0]|;
      FirstChunk(Stream(fs), pos, chunks);
      TakeChunk(fs, pos, mid, junk);
      if !CutsWord(fs, mid) {
        TakeChunks(fs, mid, chunks[1..], junk);
        var o := Take(Parsed(fs, pos).1, chunks[0] + junk, |chunks[0]|);
        if o.Running? && !SplitsWord(fs, mid, chunks[1..]) {
          var o2 := TakeAll(o.st, chunks[1..], junk);
          assert Parsed(fs, pos).0 + (o.out + o2.out) == (Parsed(fs, pos).0 + o.out) + o2.out;
        }
      }
    }
  }

  lemma FirstChunk(s: Bytes, pos: nat, chunks: seq<Bytes>)
    requires chunks != [] && pos + |Concat(chunks)| <= |s| && s[pos..pos + |Concat(chunks)|] == Concat(chunks)
    ensures var mid := pos + |chunks[0]|; var end := pos + |Concat(chunks)|;
      mid + |Concat(chunks[1..])| == end && s[pos..mid] == chunks[0] && s[mid..end] == Concat(chunks[1..])
  {
    var mid := pos + |chunks[0]|;
    var end := pos + |Concat(chunks)|;
    assert s[pos..mid] == s[pos..end][..|chunks[0]|];
    assert s[mid..end] == s[pos..end][|chunks[0]|..];
  }

  /** Decoding does not depend on how the stream was cut up, exactly as long as no cut falls inside a
      type word. Then, whatever lies behind the received bytes, the frames come out whole and in
      order, and the reader holds just the begun part of the last; otherwise the bytes behind the
      chunk become part of a type, and can make the program abort. */
  lemma ChunkingIrrelevant(fs: seq<Raw>, chunks: seq<Bytes>)
    requires AllWhole(fs) && Concat(chunks) <= Stream(fs)
    ensures !SplitsWord(fs, 0, chunks) <==>
      (!CutsWord(fs, |Concat(chunks)|) &&
       forall junk: Bytes | |junk| >= 3 + MAX_BODY ::
         TakeAll(IDLE, chunks, junk) == Running(Parsed(fs, |Concat(chunks)|).1, Parsed(fs, |Concat(chunks)|).0))
  {
    forall junk: Bytes | |junk| >= 3 + MAX_BODY && !SplitsWord(fs, 0, chunks)
      ensures !CutsWord(fs, |Concat(chunks)|)
      ensures TakeAll(IDLE, chunks, junk) == Running(Parsed(fs, |Concat(chunks)|).1, Parsed(fs, |Concat(chunks)|).0)
    {
      TakeChunks(fs, 0, chunks, junk);
    }
    var fill := seq(3 + MAX_BODY, _ => FILL);
    TakeChunks(fs, 0, chunks, fill);
  }

  /** A whole stream is read back whole. */
  lemma StreamDecodes(fs: seq<Raw>, chunks: seq<Bytes>, junk: Bytes)
    requires AllWhole(fs) && Concat(chunks) == Stream(fs) && !SplitsWord(fs, 0, chunks) && |junk| >= 3 + MAX_BODY
    ensures TakeAll(IDLE, chunks, junk) == Running(IDLE, fs)
  {
    ParsedAll(fs);
    TakeChunks(fs, 0, chunks, junk);
  }

  lemma {:induction false} FourNeverCuts(fs: seq<Raw>, pos: nat)
    requires pos % 4 == 0
    ensures !CutsWord(fs, pos)
  {
    if fs != [] && pos >= 4 + Size(fs[0].typ) { FourNeverCuts(fs[1..], pos - 4 - Size(fs[0].typ)); }
  }

  /** Both frame sizes are multiples of four, so chunks that are multiples of four split no word. */
  lemma {:induction false} FoursNeverSplit(fs: seq<Raw>, pos: nat, chunks: seq<Bytes>)
    requires pos % 4 == 0 && forall c | c in chunks :: |c| % 4 == 0
    ensures !SplitsWord(fs, pos, chunks)
    decreases |chunks|
  {
    if chunks != [] {
      assert chunks[0] in chunks;
      FourNeverCuts(fs, pos + |chunks[0]|);
      FoursNeverSplit(fs, pos + |chunks[0]|, chunks[1..]);
    }
  }

  // ---------- the reader as the switch keeps it ----------

  /** How many of the bytes left belong to the body in progress; a negative count, compared as if it
      were unsigned, counts as more than enough. */
  function Share(st: Partial, typ: int, left: int): (n: nat)
    requires Known(typ) && |st.got| <= Size(typ)
  {
    if 0 <= left < Size(typ) - |st.got| then left else Size(typ) - |st.got|
  }

  /** One round of the loop. */
  lemma Round(st: Partial, mem: Bytes, n: int, typ: int, skip: nat, used: nat, got: Bytes)
    requires Sound(st) && n > 0 && |mem| >= n + 3 + MAX_BODY
    requires skip == (if st.typ == 0 then 4 else 0) && typ == (if st.typ == 0 then Load(mem) else st.typ)
    ensures Known(typ) ==> |st.got| < Size(typ) && skip + Share(st, typ, n - skip) <= |mem|
    ensures !Known(typ) ==> Take(st, mem, n) == Aborted
    ensures skip + used <= |mem| && Known(typ) && used == Share(st, typ, n - skip) && got == st.got + mem[skip..skip + used] ==>
      Take(st, mem, n) ==
        if |got| < Size(typ) then Running(Partial(typ, got), [])
        else After(Raw(typ, got), Take(IDLE, mem[skip + used..], n - skip - used))
  {
    hide Load;
  }

  lemma Gather(out: seq<Raw>, f: Raw, o: Outcome)
    ensures Before(out, After(f, o)) == Before(out + [f], o)
    ensures o.Running? ==> Before([], o) == o
  {
    if o.Running? { assert out + ([f] + o.out) == (out + [f]) + o.out; }
  }

  datatype RoundResult = Go | Stop | Abort

  class FrameReader {
    var typ: int
    const data: array<Byte>
    var cur: nat

    ghost predicate Valid()
      reads this, data
    {
      data.Length == MAX_BODY && cur <= MAX_BODY && Sound(State())
    }

    ghost function State(): Partial
      reads this, data
      requires cur <= data.Length
    {
      Partial(typ, data[..cur])
    }

    constructor ()
      ensures Valid() && fresh(data) && State() == IDLE
    {
      typ, cur := 0, 0;
      data := new Byte[MAX_BODY];
      new;
      assert data[..0] == [];
    }

    /** The loop of `msg_switch_read`; `ok` is false where its assertion on the type fails. */
    method Read(mem: Bytes, n: int) returns (ok: bool, out: seq<Raw>)
      requires Valid() && (n > 0 ==> |mem| >= n + 3 + MAX_BODY)
      modifies this, data
      ensures ok == Take(old(State()), mem, n).Running?
      ensures ok ==> Valid() && Take(old(State()), mem, n) == Running(State(), out)
    {
      ghost var st0 := State();
      out := [];
      var pos, left := 0, n;
      Gather([], Raw(0, []), Take(st0, mem, n));
      while left > 0
        invariant Valid() && 0 <= pos && (left > 0 ==> pos + left + 3 + MAX_BODY <= |mem|)
        invariant Take(st0, mem, n) == Before(out, Take(State(), if left > 0 then mem[pos..] else [], left))
        decreases if left > 0 then left else 0
      {
        hide Load, Take, Sound, Size, After;
        var res, used, body := NextRound(mem, pos, left);
        if res != Go {
          ok := res == Stop;
          return;
        }
        ghost var o := Take(IDLE, mem[pos + used..], left - used);
        Gather(out, body, o);
        NothingLeft(mem[pos + used..], left - used);
        pos, left, out := pos + used, left - used, out + [body];
        assert Take(State(), if left > 0 then mem[pos..] else [], left) == o;
      }
      NothingTaken(State());
      assert out + [] == out;
      ok := true;
    }

    /** The body of that loop: whether it goes round again, and what it took. */
    method NextRound(mem: Bytes, pos: nat, left: int) returns (res: RoundResult, used: nat, f: Raw)
      requires Valid() && left > 0 && pos + left + 3 + MAX_BODY <= |mem|
      modifies this, data
      ensures res == Abort ==> Take(old(State()), mem[pos..], left) == Aborted
      ensures res != Abort ==> Valid()
      ensures res == Stop ==> Take(old(State()), mem[pos..], left) == Running(State(), [])
      ensures res == Go ==>
        0 < used && pos + used <= |mem| && State() == IDLE
        && Take(old(State()), mem[pos..], left) == After(f, Take(IDLE, mem[pos + used..], left - used))
    {
      hide Load, Take;
      ghost var st := State();
      f, used := Raw(0, []), 0;
      var skip := 0;
      if typ == 0 {
        LoadSame(mem, pos);
        typ, skip := Load(mem[pos..pos + 4]), 4;
      }
      Round(st, mem[pos..], left, typ, skip, 0, []);
      if typ != RESP && typ != PACK { return Abort, used, f; }
      var share := if 0 <= left - skip < Size(typ) - cur then left - skip else Size(typ) - cur;
      Copy(mem, pos + skip, share);
      Slices(mem, pos, |mem|, skip, skip + share);
      assert mem[pos..|mem|] == mem[pos..];
      Round(st, mem[pos..], left, typ, skip, share, data[..cur]);
      if cur < Size(typ) { return Stop, used, f; }
      used, f, res := skip + share, Raw(typ, data[..cur]), Go;
      assert mem[pos..][used..] == mem[pos + used..];
      typ, cur := 0, 0;
    }

    lemma LoadSame(mem: Bytes, pos: nat)
      requires pos + 4 <= |mem|
      ensures Load(mem[pos..]) == Load(mem[pos..pos + 4])
    {
    }

    lemma NothingTaken(st: Partial)
      requires Sound(st)
      ensures forall n | n <= 0 :: Take(st, [], n) == Running(st, [])
    {
    }

    lemma NothingLeft(rest: Bytes, left: int)
      requires left > 0 ==> |rest| >= left + 3 + MAX_BODY
      ensures Take(IDLE, rest, left) == Take(IDLE, if left > 0 then rest else [], left)
    {
    }

    /** The `memcpy` into the body. */
    method Copy(mem: Bytes, pos: nat, used: nat)
      requires data.Length == MAX_BODY && cur + used <= MAX_BODY && pos + used <= |mem|
      modifies this`cur, data
      ensures cur == old(cur) + used
      ensures data[..cur] == old(data[..cur]) + mem[pos..pos + used]
    {
      for i := 0 to used
        invariant cur == old(cur) && data[..cur] == old(data[..cur])
        invariant data[cur..cur + i] == mem[pos..pos + i]
      {
        data[cur + i] := mem[pos + i];
        assert data[cur..cur + i + 1] == data[cur..cur + i] + [mem[pos + i]];
      }
      assert data[..cur + used] == data[..cur] + data[cur..cur + used];
      cur := cur + used;
    }
  }
}
