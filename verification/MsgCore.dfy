/** The state of one message of a switch, and what every message operation does to it.

    An operation on a message touches its own record and two lists of the switch: it may append
    responses to the pending responses, and it may enter or leave the list of messages waiting to
    send. `Work` threads the record together with those list edits through an operation, so the
    same definition serves the whole switch and the view of a single conversation. */
module MsgCore {
  newtype Byte = b: int | 0 <= b < 256
  type Bytes = seq<Byte>

  const PACK_DATA_SIZE: nat := 8180
  const N_BUFF_PACKETS: nat := 2

  datatype Option<+T> = None | Some(value: T)

  datatype Status = Ok | Discon

  /** `data` holds the first `header.size` bytes of the packet's buffer. */
  datatype Packet = Packet(msgid: int, typ: int, data: Bytes)

  datatype Msg = Msg(
    msgid: nat, imsgid: nat, typ: int,
    connected: bool, availRead: bool, availWrit: bool, spaceRead: bool, spaceWrit: bool,
    waiting: bool, needResp: bool, writing: bool, closed: bool, sentDiscon: bool, discon: bool,
    nWrit: nat, nRead: nat,
    incomplete: Option<Packet>, readPos: nat, readQ: seq<Packet>, writQ: seq<Packet>)
  {
    /** The id this message puts in the header of everything it sends. */
    function Stamp(): int { if imsgid != 0 then imsgid as int else -(msgid as int) }

    /** Bytes accepted but still on this side. */
    function Outgoing(): Bytes { Flat(writQ) + if incomplete.Some? then incomplete.value.data else [] }

    /** Bytes received but not yet read. */
    function Unread(): Bytes { var f := Flat(readQ); if readPos <= |f| then f[readPos..] else [] }
  }

  /** `emit` and `push` list what was appended to the pending responses and the send list;
      `drop` tells that the message was taken off the send list. */
  datatype Work = Work(m: Msg, emit: seq<Status>, push: nat, drop: bool, freed: bool)

  datatype IoResult = Count(n: nat) | EBadMsg | EPipe | EAgain

  function Flat(q: seq<Packet>): Bytes { if q == [] then [] else q[0].data + Flat(q[1..]) }

  lemma {:induction false} FlatAppend(p: seq<Packet>, q: seq<Packet>)
    ensures Flat(p + q) == Flat(p) + Flat(q)
  {
    if p == [] {
      assert p + q == q;
    } else {
      FlatAppend(p[1..], q);
      assert (p + q)[0] == p[0] && (p + q)[1..] == p[1..] + q;
    }
  }

  lemma FlatOne(p: Packet)
    ensures Flat([p]) == p.data
  {
    assert [p][1..] == [];
  }

  function Fresh(id: nat, imsgid: nat, typ: int): Msg {
    Msg(id, imsgid, typ, false, false, false, true, true, false, false, false, false, false, false,
        0, 0, None, 0, [], [])
  }

  function Start(m: Msg): Work { Work(m, [], 0, false, false) }

  // ---------- internal operations ----------

  function SendResp(w: Work, st: Status): Work
    requires st.Ok? ==> w.m.needResp
  {
    w.(emit := w.emit + [st], m := if st.Ok? then w.m.(needResp := false) else w.m)
  }

  function UpdateStatus(w: Work): Work {
    var w1 := if w.m.needResp && w.m.spaceRead && !w.m.discon then SendResp(w, Ok) else w;
    if w1.m.availWrit && !(w1.m.waiting || w1.m.writing)
    then w1.(m := w1.m.(writing := true), push := w1.push + 1)
    else w1
  }

  function PushedWrit(m: Msg): Msg
    requires m.incomplete.Some?
  {
    m.(writQ := m.writQ + [m.incomplete.value], incomplete := None, availWrit := true,
       spaceWrit := m.spaceWrit && |m.writQ| + 1 < N_BUFF_PACKETS)
  }

  function PushWrit(w: Work): Work
    requires w.m.incomplete.Some?
  {
    UpdateStatus(w.(m := PushedWrit(w.m)))
  }

  function PoppedWrit(m: Msg): Msg
    requires m.writQ != []
  {
    m.(writQ := m.writQ[1..], waiting := true, writing := false,
       spaceWrit := m.spaceWrit || |m.writQ| - 1 < N_BUFF_PACKETS, availWrit := m.availWrit && |m.writQ| - 1 >= 1)
  }

  function PopWrit(w: Work): Work
    requires w.m.writQ != []
  {
    UpdateStatus(w.(m := PoppedWrit(w.m)))
  }

  function PushedRead(m: Msg, p: Packet): Msg {
    Took(m, if m.closed then m.readQ else m.readQ + [p])
  }

  function Took(m: Msg, q: seq<Packet>): Msg {
    m.(nRead := m.nRead + 1, needResp := true, readQ := q, availRead := true,
       spaceRead := m.spaceRead && |q| < N_BUFF_PACKETS)
  }

  function PushRead(w: Work, p: Packet): Work {
    UpdateStatus(w.(m := PushedRead(w.m, p)))
  }

  function PoppedRead(m: Msg): Msg
    requires m.readQ != []
  {
    m.(readQ := m.readQ[1..], readPos := 0,
       spaceRead := m.spaceRead || |m.readQ| - 1 < N_BUFF_PACKETS, availRead := m.availRead && |m.readQ| - 1 >= 1)
  }

  function PopRead(w: Work): Work
    requires w.m.readQ != []
  {
    UpdateStatus(w.(m := PoppedRead(w.m)))
  }

  function Clear(w: Work): Work {
    w.(drop := w.drop || w.m.writing,
       m := w.m.(readQ := [], writQ := [], availRead := false, availWrit := false,
                 spaceRead := false, spaceWrit := false, waiting := false,
                 writing := false, needResp := false))
  }

  function Free(w: Work): Work { Clear(w).(freed := true) }

  function PacketNew(w: Work): (r: Work)
    ensures r.m.incomplete.Some? && r.m.incomplete.value.data == [] && r.m.nWrit == w.m.nWrit + 1
  {
    var w1 := if w.m.incomplete.Some? then PushWrit(w) else w;
    w1.(m := w1.m.(incomplete := Some(Packet(w1.m.Stamp(), w1.m.typ, [])), nWrit := w1.m.nWrit + 1))
  }

  function FlushOpen(w: Work): Work { if w.m.incomplete.Some? then PushWrit(w) else w }

  predicate Filling(w: Work) { w.m.incomplete.Some? && |w.m.incomplete.value.data| <= PACK_DATA_SIZE }

  /** A full packet is queued and replaced before any byte is copied. */
  function MakeRoom(w: Work): (r: Work)
    requires Filling(w)
    ensures r.m.incomplete.Some? && |r.m.incomplete.value.data| < PACK_DATA_SIZE && r.m.nWrit >= w.m.nWrit
  {
    if |w.m.incomplete.value.data| == PACK_DATA_SIZE then PacketNew(w) else w
  }

  function Put(w: Work, chunk: Bytes): (r: Work)
    requires w.m.incomplete.Some?
    ensures r.m.incomplete == Some(w.m.incomplete.value.(data := w.m.incomplete.value.data + chunk))
    ensures r.m.nWrit == w.m.nWrit
  {
    var p := w.m.incomplete.value;
    w.(m := w.m.(incomplete := Some(p.(data := p.data + chunk))))
  }

  function ChunkSize(w: Work, data: Bytes): (n: nat)
    requires w.m.incomplete.Some? && |w.m.incomplete.value.data| < PACK_DATA_SIZE && data != []
    ensures 0 < n <= |data| && n <= PACK_DATA_SIZE - |w.m.incomplete.value.data|
  {
    var room := PACK_DATA_SIZE - |w.m.incomplete.value.data|;
    if |data| > room then room else |data|
  }

  /** The copying loop of `msg_write`. */
  function Fill(w: Work, data: Bytes): (r: Work)
    requires Filling(w)
    decreases |data|
  {
    if data == [] then w else
    var w1 := MakeRoom(w);
    var n := ChunkSize(w1, data);
    Fill(Put(w1, data[..n]), data[n..])
  }

  predicate Reading(m: Msg) { m.readQ != [] && m.availRead && m.readPos <= |m.readQ[0].data| }

  /** Copying the next `chunk` bytes of the first packet. */
  function Advance(w: Work, chunk: nat): Work { w.(m := w.m.(readPos := w.m.readPos + chunk)) }

  function NextChunk(w: Work, size: nat): (n: nat)
    requires Reading(w.m)
    ensures w.m.readPos + n <= |w.m.readQ[0].data| && n <= size
    ensures size > 0 && n == 0 ==> w.m.readPos == |w.m.readQ[0].data|
  {
    var left := |w.m.readQ[0].data| - w.m.readPos;
    if left > size then size else left
  }

  /** One round of the copying loop of `msg_read`: the work so far and whether the loop goes on. */
  function ReadStep(w: Work, size: nat): (r: (Work, bool))
    requires Reading(w.m)
    ensures r.1 ==> Reading(r.0.m)
    ensures r.1 && size > 0 ==>
      |r.0.m.readQ| < |w.m.readQ| || (|r.0.m.readQ| == |w.m.readQ| && NextChunk(w, size) > 0)
  {
    var w1 := Advance(w, NextChunk(w, size));
    if w1.m.readPos == |w1.m.readQ[0].data| then (PopRead(w1), PopRead(w1).m.availRead) else (w1, true)
  }

  function ReadPart(w: Work, size: nat): Bytes
    requires Reading(w.m)
  {
    w.m.readQ[0].data[w.m.readPos..w.m.readPos + NextChunk(w, size)]
  }

  /** The copying loop of `msg_read`. */
  function ReadLoop(w: Work, size: nat, got: Bytes): (Work, Bytes)
    requires Reading(w.m)
    decreases |w.m.readQ|, size
  {
    if size == 0 then (w, got) else
    var step := ReadStep(w, size);
    var got' := got + ReadPart(w, size);
    if step.1 then ReadLoop(step.0, size - NextChunk(w, size), got') else (step.0, got')
  }

  function DrainWrit(w: Work): Work
    requires w.m.availWrit ==> w.m.writQ != []
    decreases |w.m.writQ|
  {
    if w.m.availWrit then DrainWrit(PopWrit(w)) else w
  }

  function DrainRead(w: Work): Work
    requires w.m.availRead ==> w.m.readQ != []
    decreases |w.m.readQ|
  {
    if w.m.availRead then DrainRead(PopRead(w)) else w
  }

  // ---------- operations called by the user of the switch ----------

  function Write(m: Msg, data: Bytes): (Work, IoResult)
    requires m.incomplete.Some? ==> |m.incomplete.value.data| <= PACK_DATA_SIZE
  {
    if m.closed then (Start(m), EBadMsg)
    else if m.discon then (Start(m), EPipe)
    else if !m.spaceWrit then (Start(m), EAgain)
    else
      var w := if m.incomplete.None? then PacketNew(Start(m)) else Start(m);
      (Fill(w, data), Count(|data|))
  }

  function Read(m: Msg, size: nat): (Work, IoResult, Bytes)
    requires !m.closed && m.availRead ==> Reading(m)
  {
    if m.closed then (Start(m), EBadMsg, [])
    else if m.discon && !m.availRead then (Start(m), Count(0), [])
    else if !m.availRead then (Start(m), EAgain, [])
    else
      var r := ReadLoop(Start(m), size, []);
      (r.0, Count(|r.1|), r.1)
  }

  function Flush(m: Msg): (Work, IoResult) {
    if m.closed then (Start(m), EBadMsg) else (FlushOpen(Start(m)), Count(0))
  }

  function Accept(m: Msg): Work {
    if m.closed || m.connected then Start(m)
    else if m.discon then Free(Start(m))
    else Start(m.(connected := true))
  }

  function Close(m: Msg): (Work, IoResult)
    requires !m.closed && m.availRead ==> m.readQ != []
  {
    if m.closed then (Start(m), EBadMsg)
    else if m.discon then (Free(Start(m)), Count(0))
    else
      var w := FlushOpen(Start(m));
      var w1 := w.(m := w.m.(closed := true));
      if !w1.m.availWrit && w1.m.nWrit == 0 && w1.m.nRead == 0 then (Free(w1), Count(0)) else
      (CloseTail(w1), Count(0))
  }

  function CloseTail(w: Work): Work
    requires w.m.availRead ==> w.m.readQ != []
  {
    DrainRead(if !w.m.availWrit then Disconnect(w) else w)
  }

  function Disconnect(w: Work): Work {
    var w1 := SendResp(w, Discon);
    w1.(m := w1.m.(sentDiscon := true))
  }

  // ---------- reactions to received frames ----------

  /** The assertion of `msg_recv_resp` that an acknowledgement was awaited. */
  predicate RespExpected(m: Msg, st: Status) { st.Ok? && !m.sentDiscon ==> m.waiting }

  function RecvResp(m: Msg, st: Status): Work
    requires m.availWrit ==> m.writQ != []
    requires RespExpected(m, st)
  {
    if st.Discon? then
      if m.sentDiscon then Free(Start(m)) else
      var w := Disconnect(Start(m));
      var w1 := w.(m := w.m.(discon := true, imsgid := 0));
      if !w1.m.availRead then Clear(w1) else DrainWrit(w1)
    else if m.sentDiscon then Start(m)
    else RecvOk(Start(m.(waiting := false)))
  }

  function RecvOk(w: Work): Work {
    var w1 := if !w.m.availWrit && !w.m.closed then FlushOpen(w) else w;
    var w2 := if !w.m.availWrit && !w1.m.availWrit && w1.m.closed then Disconnect(w1) else w1;
    UpdateStatus(w2)
  }

  function RecvPack(m: Msg, p: Packet): Work { PushRead(Start(m), p) }
}
