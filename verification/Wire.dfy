/** How a frame is laid out in bytes, and that the peer's reader recovers it: the reason the two
    switches may be joined by streams of frames. */
module Wire {
  import opened MsgCore
  import opened Framing
  import T = TwoSwitches

  const INT_RANGE: int := 0x1_0000_0000
  const INT_MIN: int := -0x8000_0000
  const INT_MAX: int := 0x7fff_ffff

  predicate IsInt(n: int) { INT_MIN <= n <= INT_MAX }

  /** A 32-bit integer in the byte order of the machine. */
  function Int32(n: int): (r: Bytes)
    requires IsInt(n)
    ensures |r| == 4
  {
    var u := n % INT_RANGE;
    [(u % 256) as Byte, (u / 256 % 256) as Byte, (u / 65536 % 256) as Byte, (u / 16777216) as Byte]
  }

  function LoadInt(w: Bytes): int
    requires |w| >= 4
  {
    var u := Load(w);
    if u > INT_MAX then u - INT_RANGE else u
  }

  lemma Bytes4(u: nat)
    requires u < INT_RANGE
    ensures u % 256 + 256 * (u / 256 % 256) + 65536 * (u / 65536 % 256) + 16777216 * (u / 16777216) == u
  {
    assert u / 65536 == u / 256 / 256;
    assert u / 16777216 == u / 256 / 256 / 256;
  }

  lemma IntBack(n: int, rest: Bytes)
    requires IsInt(n)
    ensures LoadInt(Int32(n) + rest) == n
  {
    Bytes4(n % INT_RANGE);
  }

  predicate Fits(f: T.Frame) {
    match f
    case Pack(p) => IsInt(p.msgid) && IsInt(p.typ) && |p.data| <= PACK_DATA_SIZE
    case Resp(msgid, _) => IsInt(msgid)
  }

  function Zeros(n: nat): (r: Bytes)
    ensures |r| == n
  {
    seq(n, _ => 0)
  }

  /** The body of a frame: a response is an id, a status byte and padding; a packet is a header of id,
      size and type and a full buffer of which `size` bytes count. */
  function ToRaw(f: T.Frame): (r: Raw)
    requires Fits(f)
    ensures Whole(r)
  {
    match f
    case Resp(msgid, st) => Raw(RESP, Int32(msgid) + ([if st.Ok? then 1 else 2] + Zeros(3)))
    case Pack(p) =>
      Raw(PACK, Int32(p.msgid) + (Int32(|p.data|) + (Int32(p.typ) + (p.data + Zeros(PACK_DATA_SIZE - |p.data|)))))
  }

  function FromRaw(r: Raw): T.Frame
    requires Whole(r)
  {
    var b := r.body;
    if r.typ == RESP then T.Resp(LoadInt(b), if b[4] == 2 then Discon else Ok)
    else
      var size := LoadInt(b[4..]);
      T.Pack(Packet(LoadInt(b), LoadInt(b[8..]), if 0 <= size <= PACK_DATA_SIZE then b[12..12 + size] else []))
  }

  lemma FrameBack(f: T.Frame)
    requires Fits(f)
    ensures FromRaw(ToRaw(f)) == f
  {
    var b := ToRaw(f).body;
    match f
    case Resp(msgid, st) => IntBack(msgid, [if st.Ok? then 1 else 2] + Zeros(3));
    case Pack(p) =>
      var buf := p.data + Zeros(PACK_DATA_SIZE - |p.data|);
      IntBack(p.msgid, Int32(|p.data|) + (Int32(p.typ) + buf));
      IntBack(|p.data|, Int32(p.typ) + buf);
      IntBack(p.typ, buf);
      assert b[4..] == Int32(|p.data|) + (Int32(p.typ) + buf);
      assert b[8..] == Int32(p.typ) + buf;
      assert b[12..] == buf;
      assert b[12..12 + |p.data|] == b[12..][..|p.data|] == p.data;
      hide Int32, LoadInt;
  }

  /** Where everything stands: the types 1 and 2, the statuses 1 and 2, bodies of 8 and 8192 bytes, the id first, and
      in a packet the size, the type and the data behind it. */
  lemma Layout(f: T.Frame)
    requires Fits(f)
    ensures f.Resp? ==> var r := ToRaw(f);
      r.typ == 1 && |r.body| == 8 && LoadInt(r.body[0..4]) == f.msgid && r.body[4] == (if f.st.Ok? then 1 else 2)
    ensures f.Pack? ==> var r, p := ToRaw(f), f.p;
      && r.typ == 2 && |r.body| == 8192 && |p.data| <= 8180
      && LoadInt(r.body[0..4]) == p.msgid && LoadInt(r.body[4..8]) == |p.data| && LoadInt(r.body[8..12]) == p.typ
      && r.body[12..12 + |p.data|] == p.data
  {
    match f
    case Resp(msgid, st) =>
      Field(Int32(msgid), [if st.Ok? then 1 else 2] + Zeros(3), 0);
      IntBack(msgid, []);
      hide Int32, LoadInt;
    case Pack(p) =>
      var buf := p.data + Zeros(PACK_DATA_SIZE - |p.data|);
      IntBack(p.msgid, []);
      IntBack(|p.data|, []);
      IntBack(p.typ, []);
      PackLayout(Int32(p.msgid), Int32(|p.data|), Int32(p.typ), p.data, buf);
      hide Int32, LoadInt;
  }

  lemma Field(w: Bytes, rest: Bytes, k: nat)
    requires |w| == 4
    ensures (w + rest)[0..4] == w + [] && (k < |rest| ==> (w + rest)[4 + k] == rest[k])
  {
  }

  lemma PackLayout(x: Bytes, y: Bytes, z: Bytes, data: Bytes, buf: Bytes)
    requires |x| == |y| == |z| == 4 && data <= buf
    ensures var b := x + (y + (z + buf)); b[0..4] == x + [] && b[4..8] == y + [] && b[8..12] == z + [] && b[12..12 + |data|] == data
  {
    var b := x + (y + (z + buf));
    assert b[12..] == buf;
    assert b[12..12 + |data|] == b[12..][..|data|];
  }

  /** The low byte comes first, and negative numbers are counted down from 2^32. */
  lemma LowByteFirst()
    ensures Int32(0x01020304) == [4, 3, 2, 1] && Int32(-2) == [254, 255, 255, 255]
    ensures LoadInt([4, 3, 2, 1]) == 0x01020304 && LoadInt([254, 255, 255, 255]) == -2
  {
  }

  predicate AllFit(fs: seq<T.Frame>) { forall i | 0 <= i < |fs| :: Fits(fs[i]) }

  function Raws(fs: seq<T.Frame>): (r: seq<Raw>)
    requires AllFit(fs)
    ensures |r| == |fs| && AllWhole(r) && forall i | 0 <= i < |fs| :: r[i] == ToRaw(fs[i])
  {
    seq(|fs|, i requires 0 <= i < |fs| => ToRaw(fs[i]))
  }

  function Frames(rs: seq<Raw>): (r: seq<T.Frame>)
    requires AllWhole(rs)
    ensures |r| == |rs| && forall i | 0 <= i < |rs| :: r[i] == FromRaw(rs[i])
  {
    seq(|rs|, i requires 0 <= i < |rs| => FromRaw(rs[i]))
  }

  /** The bytes one switch writes for a sequence of frames, delivered in chunks that split no type
      word, come out of the other switch's reader as the same frames. */
  lemma WireIsFifo(fs: seq<T.Frame>, chunks: seq<Bytes>, junk: Bytes)
    requires AllFit(fs) && Concat(chunks) == Stream(Raws(fs)) && |junk| >= 3 + MAX_BODY
    requires !SplitsWord(Raws(fs), 0, chunks)
    ensures var o := TakeAll(IDLE, chunks, junk); o.Running? && o.st == IDLE && AllWhole(o.out) && Frames(o.out) == fs
  {
    StreamDecodes(Raws(fs), chunks, junk);
    forall i | 0 <= i < |fs|
      ensures Frames(Raws(fs))[i] == fs[i]
    {
      FrameBack(fs[i]);
    }
    hide TakeAll, SplitsWord, FromRaw, ToRaw;
    assert Frames(Raws(fs)) == fs;
  }
}
