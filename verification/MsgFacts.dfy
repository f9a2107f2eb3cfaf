/** What every operation on one message keeps, and what it adds to or takes from the two lists. */
module MsgFacts {
  import opened MsgCore

  predicate Stamped(p: Packet, m: Msg, h: int) {
    p.msgid == h && p.typ == m.typ && |p.data| <= PACK_DATA_SIZE
  }

  predicate QueueOk(m: Msg, h: int) {
    && (forall p | p in m.writQ :: Stamped(p, m, h))
    && (m.incomplete.Some? ==> Stamped(m.incomplete.value, m, h))
    && (m.writQ != [] || m.incomplete.Some? ==> m.nWrit > 0)
    && (m.readQ != [] || m.needResp ==> m.nRead > 0)
    && (m.readQ == [] ==> m.readPos == 0)
    && (m.readQ != [] ==> m.readPos <= |m.readQ[0].data|)
  }

  predicate FlagsOk(m: Msg) {
    && (m.availWrit <==> m.writQ != [])
    && (!m.closed ==> (m.availRead <==> m.readQ != []))
    && (m.closed ==> m.readQ == [] && m.incomplete.None?)
    && |m.readQ| <= N_BUFF_PACKETS
    && (m.writing ==> m.writQ != [] && !m.waiting)
    && (m.sentDiscon ==> m.writQ == [])
    && (m.discon ==> m.sentDiscon)
    && (m.sentDiscon && !m.discon ==> m.closed)
    && (!m.discon ==>
        && (m.spaceRead <==> |m.readQ| < N_BUFF_PACKETS)
        && (m.spaceWrit <==> |m.writQ| < N_BUFF_PACKETS)
        && (m.needResp <==> |m.readQ| == N_BUFF_PACKETS)
        && (m.writQ != [] ==> m.waiting || m.writing))
  }

  /** The invariant of one message; `h` is the header id its packets carry for its whole life. */
  predicate MsgOk(m: Msg, h: int) {
    && QueueOk(m, h)
    && FlagsOk(m)
    && (!m.discon ==> m.Stamp() == h)
  }

  function Bit(b: bool): nat { if b then 1 else 0 }

  function CountOk(s: seq<Status>): nat { if s == [] then 0 else Bit(s[0].Ok?) + CountOk(s[1..]) }

  function CountDiscon(s: seq<Status>): nat { if s == [] then 0 else Bit(s[0].Discon?) + CountDiscon(s[1..]) }

  lemma {:induction false} CountAll(s: seq<Status>)
    ensures |s| == CountOk(s) + CountDiscon(s)
  {
    if s != [] { CountAll(s[1..]); }
  }

  lemma EmitCounts(d: bool, o: bool)
    ensures var e := (if d then [Discon] else []) + (if o then [Ok] else []);
      CountOk(e) == Bit(o) && CountDiscon(e) == Bit(d)
  {
    assert [Discon, Ok][1..] == [Ok] && [Discon] + [Ok] == [Discon, Ok];
  }

  /** The send list holds the message exactly once while it is writing and never otherwise. */
  predicate SchedKept(m: Msg, w: Work) {
    Bit(m.writing && !w.drop) + w.push == Bit(!w.freed && w.m.writing)
  }

  predicate SameInbox(m: Msg, n: Msg) {
    && n.readQ == m.readQ && n.readPos == m.readPos && n.availRead == m.availRead
    && n.spaceRead == m.spaceRead && n.needResp == m.needResp && n.nRead == m.nRead
  }

  predicate SameLife(m: Msg, n: Msg) {
    && n.closed == m.closed && n.sentDiscon == m.sentDiscon && n.discon == m.discon
    && n.connected == m.connected && n.msgid == m.msgid && n.imsgid == m.imsgid && n.typ == m.typ
  }

  predicate SameOutbox(m: Msg, n: Msg) {
    && n.writQ == m.writQ && n.incomplete == m.incomplete && n.availWrit == m.availWrit
    && n.spaceWrit == m.spaceWrit && n.waiting == m.waiting && n.writing == m.writing && n.nWrit == m.nWrit
  }

  // ---------- writing ----------

  lemma PushWritFacts(w: Work, h: int)
    requires MsgOk(w.m, h) && !w.m.discon && !w.m.sentDiscon && w.m.incomplete.Some?
    ensures var r := PushWrit(w);
      && MsgOk(r.m, h) && SameInbox(w.m, r.m) && SameLife(w.m, r.m)
      && r.m.writQ == w.m.writQ + [w.m.incomplete.value] && r.m.incomplete.None?
      && r.m.waiting == w.m.waiting && r.m.nWrit == w.m.nWrit
      && r.emit == w.emit && r.drop == w.drop && r.freed == w.freed
      && r.push == w.push + Bit(r.m.writing) - Bit(w.m.writing)
      && r.m.Outgoing() == w.m.Outgoing()
  {
    FlatAppend(w.m.writQ, [w.m.incomplete.value]);
    FlatOne(w.m.incomplete.value);
  }

  /** A run of an operation that only writes, from the message `m` on. */
  predicate WriteOnly(m: Msg, w: Work, h: int, more: Bytes) {
    && MsgOk(w.m, h) && SameInbox(m, w.m) && SameLife(m, w.m)
    && w.m.waiting == m.waiting && w.m.nWrit >= m.nWrit
    && w.emit == [] && !w.drop && !w.freed
    && w.push + Bit(m.writing) == Bit(w.m.writing)
    && w.m.Outgoing() == m.Outgoing() + more
  }

  lemma PacketNewFacts(m: Msg, w: Work, h: int, sofar: Bytes)
    requires WriteOnly(m, w, h, sofar) && !m.closed && !m.discon && !m.sentDiscon
    ensures var r := PacketNew(w);
      && WriteOnly(m, r, h, sofar) && Filling(r) && r.m.nWrit > 0
      && r.m.writQ == w.m.writQ + (if w.m.incomplete.Some? then [w.m.incomplete.value] else [])
  {
    if w.m.incomplete.Some? { PushWritFacts(w, h); }
  }

  lemma PutFacts(m: Msg, w: Work, h: int, sofar: Bytes, chunk: Bytes)
    requires WriteOnly(m, w, h, sofar) && !m.closed && w.m.incomplete.Some?
    requires |w.m.incomplete.value.data| + |chunk| <= PACK_DATA_SIZE
    ensures WriteOnly(m, Put(w, chunk), h, sofar + chunk) && Filling(Put(w, chunk))
  {
    hide Flat, FlagsOk;
    var d := w.m.incomplete.value.data;
    Regroup(Flat(w.m.writQ), d, chunk);
    Regroup(m.Outgoing(), sofar, chunk);
    SameFlags(w.m, Put(w, chunk).m);
  }

  lemma Regroup(a: Bytes, b: Bytes, c: Bytes)
    ensures a + b + c == a + (b + c)
  {
  }

  lemma SameFlags(m: Msg, n: Msg)
    requires FlagsOk(m) && !m.closed && m.incomplete.Some? && n == m.(incomplete := n.incomplete)
    ensures FlagsOk(n)
  {
  }

  lemma {:induction false} FillFacts(m: Msg, w: Work, h: int, sofar: Bytes, data: Bytes)
    requires WriteOnly(m, w, h, sofar) && Filling(w) && !m.closed && !m.discon && !m.sentDiscon
    ensures WriteOnly(m, Fill(w, data), h, sofar + data)
    ensures Fill(w, data).m.incomplete.Some?
    ensures Fill(w, data).m.nWrit >= w.m.nWrit
    decreases |data|
  {
    hide PacketNew, Put, MsgOk, SameInbox, SameLife, Msg.Outgoing;
    if data == [] {
      assert sofar + data == sofar;
    } else {
      if |w.m.incomplete.value.data| == PACK_DATA_SIZE { PacketNewFacts(m, w, h, sofar); }
      var w1 := MakeRoom(w);
      var n := ChunkSize(w1, data);
      PutFacts(m, w1, h, sofar, data[..n]);
      FillFacts(m, Put(w1, data[..n]), h, sofar + data[..n], data[n..]);
      assert sofar + data[..n] + data[n..] == sofar + data;
    }
  }

  function WriteStart(m: Msg): Work { if m.incomplete.None? then PacketNew(Start(m)) else Start(m) }

  lemma WriteStarts(m: Msg, h: int)
    requires MsgOk(m, h) && !m.closed && !m.discon
    ensures WriteOnly(m, WriteStart(m), h, []) && Filling(WriteStart(m)) && WriteStart(m).m.nWrit > 0
  {
    assert m.Outgoing() + [] == m.Outgoing();
    if m.incomplete.None? { PacketNewFacts(m, Start(m), h, []); }
  }

  lemma WriteFacts(m: Msg, h: int, data: Bytes)
    requires MsgOk(m, h)
    ensures var (w, res) := Write(m, data);
      && SchedKept(m, w)
      && (res.Count? <==> !m.closed && !m.discon && m.spaceWrit)
      && (res.Count? ==> res.n == |data| && WriteOnly(m, w, h, data) && w.m.incomplete.Some? && w.m.nWrit > 0)
      && (!res.Count? ==> w == Start(m))
      && (res == EBadMsg <==> m.closed)
      && (res == EPipe <==> !m.closed && m.discon)
      && (res == EAgain <==> !m.closed && !m.discon && |m.writQ| >= N_BUFF_PACKETS)
  {
    if !m.closed && !m.discon && m.spaceWrit {
      WriteStarts(m, h);
      FillFacts(m, WriteStart(m), h, [], data);
      assert [] + data == data;
    }
  }

  /** A write queues no packet that is not full. */
  lemma WriteFills(m: Msg, h: int, data: Bytes)
    requires MsgOk(m, h)
    ensures var w := Write(m, data).0; OnlyFull(m, w.m)
  {
    hide Fill, PushWrit;
    if !m.closed && !m.discon && m.spaceWrit {
      WriteStarts(m, h);
      if m.incomplete.None? { assert PacketNew(Start(m)).m.writQ == m.writQ; }
      FillFills(m, WriteStart(m), data);
    }
  }

  /** n has the queue of m and full packets behind it. */
  predicate OnlyFull(m: Msg, n: Msg) {
    m.writQ <= n.writQ && forall i | |m.writQ| <= i < |n.writQ| :: |n.writQ[i].data| == PACK_DATA_SIZE
  }

  lemma {:induction false} FillFills(m: Msg, w: Work, data: Bytes)
    requires Filling(w) && OnlyFull(m, w.m)
    ensures OnlyFull(m, Fill(w, data).m)
    decreases |data|
  {
    hide OnlyFull, PacketNew;
    if data != [] {
      var w1 := MakeRoom(w);
      RoomFills(m, w);
      var n := ChunkSize(w1, data);
      SameQueue(m, w1.m, Put(w1, data[..n]).m);
      FillFills(m, Put(w1, data[..n]), data[n..]);
    }
  }

  lemma RoomFills(m: Msg, w: Work)
    requires Filling(w) && OnlyFull(m, w.m)
    ensures OnlyFull(m, MakeRoom(w).m)
  {
    hide UpdateStatus;
    if |w.m.incomplete.value.data| == PACK_DATA_SIZE { StatusQueue(w.(m := PushedWrit(w.m))); }
  }

  lemma StatusQueue(w: Work)
    ensures UpdateStatus(w).m.writQ == w.m.writQ
  {
  }

  lemma SameQueue(m: Msg, n: Msg, n1: Msg)
    requires OnlyFull(m, n) && n.writQ == n1.writQ
    ensures OnlyFull(m, n1)
  {
  }

  /** A closed message refuses everything. */
  lemma ClosedRefuses(m: Msg, data: Bytes, size: nat)
    requires m.closed && (m.incomplete.Some? ==> |m.incomplete.value.data| <= PACK_DATA_SIZE)
    ensures Write(m, data) == (Start(m), EBadMsg) && Read(m, size) == (Start(m), EBadMsg, [])
    ensures Flush(m) == (Start(m), EBadMsg) && Close(m) == (Start(m), EBadMsg) && Accept(m) == Start(m)
  {
  }

  /** A message whose peer has disconnected goes without another word when it is closed, or accepted for the first
      time; what has arrived can still be read. */
  lemma DisconFrees(m: Msg)
    requires m.discon && !m.closed && (m.availRead ==> m.readQ != [])
    ensures var (w, res) := Close(m); res == Count(0) && w.freed && w.emit == [] && w.push == 0
    ensures !m.connected ==> var w := Accept(m); w.freed && w.emit == [] && w.push == 0
    ensures m.connected ==> Accept(m) == Start(m)
  {
  }

  lemma FlushFacts(m: Msg, h: int)
    requires MsgOk(m, h) && !m.closed && !m.discon
    ensures var w := FlushOpen(Start(m));
      && WriteOnly(m, w, h, []) && w.m.incomplete.None?
      && w.m.nWrit == m.nWrit
      && w.m.writQ == m.writQ + (if m.incomplete.Some? then [m.incomplete.value] else [])
      && Flush(m) == (w, Count(0))
  {
    assert m.Outgoing() + [] == m.Outgoing();
    if m.incomplete.Some? { PushWritFacts(Start(m), h); }
  }

  // ---------- reading ----------

  /** A run of an operation that only reads, from the message `m` on. `got` was delivered, and the
      acknowledgements held back so far were emitted exactly when they stopped being held. */
  predicate ReadOnly(m: Msg, w: Work, h: int, got: Bytes) {
    && MsgOk(w.m, h) && SameOutbox(m, w.m) && SameLife(m, w.m) && w.m.nRead == m.nRead
    && w.push == 0 && !w.drop && !w.freed
    && CountDiscon(w.emit) == 0
    && (!m.discon ==> CountOk(w.emit) + Bit(w.m.needResp) == Bit(m.needResp))
    && (m.discon ==> w.emit == [])
    && m.Unread() == got + w.m.Unread()
  }

  lemma {:induction false} UnreadHead(m: Msg)
    requires m.readQ != [] && m.readPos <= |m.readQ[0].data|
    ensures m.Unread() == m.readQ[0].data[m.readPos..] + Flat(m.readQ[1..])
  {
  }

  lemma PopReadFacts(m: Msg, w: Work, h: int, got: Bytes)
    requires ReadOnly(m, w, h, got) && !m.closed && w.m.readQ != []
    requires w.m.readPos == |w.m.readQ[0].data|
    ensures ReadOnly(m, PopRead(w), h, got)
    ensures PopRead(w).m.Unread() == w.m.Unread()
    ensures PopRead(w).m.availRead ==> Reading(PopRead(w).m)
  {
    UnreadHead(w.m);
    var r := PopRead(w).m;
    assert r.Unread() == w.m.Unread();
  }

  lemma AdvanceFacts(m: Msg, w: Work, h: int, chunk: nat, got: Bytes)
    requires ReadOnly(m, w, h, got) && !m.closed && Reading(w.m)
    requires w.m.readPos + chunk <= |w.m.readQ[0].data|
    ensures var part := w.m.readQ[0].data[w.m.readPos..w.m.readPos + chunk];
      && ReadOnly(m, Advance(w, chunk), h, got + part) && Reading(Advance(w, chunk).m)
      && w.m.Unread() == part + Advance(w, chunk).m.Unread()
  {
    var part := w.m.readQ[0].data[w.m.readPos..w.m.readPos + chunk];
    var w1 := Advance(w, chunk);
    UnreadHead(w.m);
    UnreadHead(w1.m);
    assert w.m.Unread() == part + w1.m.Unread();
    assert got + (part + w1.m.Unread()) == (got + part) + w1.m.Unread();
  }

  lemma UnreadNothing(m: Msg, h: int)
    requires MsgOk(m, h) && !m.closed && !m.availRead
    ensures m.Unread() == []
  {
  }

  lemma ReadStepFacts(m: Msg, w: Work, h: int, size: nat, got: Bytes)
    requires ReadOnly(m, w, h, got) && !m.closed && Reading(w.m) && size > 0
    ensures var (w1, more) := ReadStep(w, size);
      && ReadOnly(m, w1, h, got + ReadPart(w, size))
      && w.m.Unread() == ReadPart(w, size) + w1.m.Unread()
      && (more ==> Reading(w1.m))
      && (!more ==> w1.m.Unread() == [])
  {
    hide Flat, QueueOk, FlagsOk, PopRead;
    var n := NextChunk(w, size);
    AdvanceFacts(m, w, h, n, got);
    var w1 := Advance(w, n);
    if w1.m.readPos == |w1.m.readQ[0].data| {
      PopReadFacts(m, w1, h, got + ReadPart(w, size));
      if !PopRead(w1).m.availRead { UnreadNothing(PopRead(w1).m, h); }
    }
  }

  lemma {:induction false} ReadLoopFacts(m: Msg, w: Work, h: int, size: nat, got: Bytes)
    requires ReadOnly(m, w, h, got) && !m.closed && Reading(w.m)
    ensures ReadOnly(m, ReadLoop(w, size, got).0, h, ReadLoop(w, size, got).1)
    ensures |ReadLoop(w, size, got).1| == |got| + if |w.m.Unread()| > size then size else |w.m.Unread()|
    decreases |w.m.readQ|, size
  {
    hide ReadStep, ReadOnly, Reading;
    if size > 0 {
      ReadStepFacts(m, w, h, size, got);
      var (w1, more) := ReadStep(w, size);
      if more { ReadLoopFacts(m, w1, h, size - NextChunk(w, size), got + ReadPart(w, size)); }
    }
  }

  /** A read delivers the next unread bytes in order, as many as asked for or as there are. */
  lemma ReadFacts(m: Msg, h: int, size: nat)
    requires MsgOk(m, h)
    ensures var (w, res, out) := Read(m, size);
      && SchedKept(m, w)
      && ReadOnly(m, w, h, out)
      && (m.closed ==> res.EBadMsg? && w == Start(m) && out == [])
      && (!m.closed && m.availRead ==>
          && res == Count(|out|)
          && |out| == if |m.Unread()| > size then size else |m.Unread()|)
      && (!m.closed && !m.availRead ==> w == Start(m) && out == [] && res == if m.discon then Count(0) else EAgain)
  {
    assert [] + m.Unread() == m.Unread();
    if !m.closed && m.availRead { ReadLoopFacts(m, Start(m), h, size, []); }
  }

  // ---------- sending and receiving ----------

  lemma PopWritFacts(m: Msg, h: int)
    requires MsgOk(m, h) && m.writing
    ensures var w := PopWrit(Start(m));
      && MsgOk(w.m, h) && SameInbox(m, w.m) && SameLife(m, w.m)
      && w.m.incomplete == m.incomplete && w.m.nWrit == m.nWrit
      && w.emit == [] && w.push == 0 && !w.drop && !w.freed
      && w.m.waiting && !w.m.writing && w.m.writQ == m.writQ[1..]
      && m.Outgoing() == m.writQ[0].data + w.m.Outgoing()
      && Stamped(m.writQ[0], m, h)
  {
    assert forall p | p in m.writQ[1..] :: p in m.writQ;
  }

  lemma RecvPackFacts(m: Msg, h: int, p: Packet)
    requires MsgOk(m, h) && !m.discon && !m.needResp
    ensures var w := RecvPack(m, p);
      && MsgOk(w.m, h) && SameOutbox(m, w.m) && SameLife(m, w.m) && w.m.nRead == m.nRead + 1
      && w.push == 0 && !w.drop && !w.freed
      && w.emit == (if w.m.needResp then [] else [Ok])
      && (!m.closed ==> w.m.Unread() == m.Unread() + p.data)
  {
    FlatAppend(m.readQ, [p]);
    FlatOne(p);
    if m.readQ == [] { assert Flat(m.readQ) == []; }
  }

  lemma RecvOkFacts(m: Msg, h: int)
    requires MsgOk(m, h) && m.waiting && !m.sentDiscon
    ensures var w := RecvResp(m, Ok);
      && MsgOk(w.m, h) && SameInbox(m, w.m) && SchedKept(m, w) && !w.drop && !w.freed
      && !w.m.waiting && w.m.nWrit == m.nWrit && w.m.Outgoing() == m.Outgoing()
      && w.m.closed == m.closed && !w.m.discon && w.m.typ == m.typ
      && w.m.msgid == m.msgid && w.m.imsgid == m.imsgid
      && w.m.sentDiscon == (m.closed && m.writQ == [])
      && w.emit == (if w.m.sentDiscon then [Discon] else [])
      && (w.m.writQ == [] ==> w.m.incomplete.None? && w.m.Outgoing() == [])
  {
    if m.incomplete.Some? {
      FlatAppend(m.writQ, [m.incomplete.value]);
      FlatOne(m.incomplete.value);
    }
  }

  /** Receiving a disconnect leaves the send list right exactly when the message is not both on it
      and flagged to have something to read; see `MsgFacts.DrainLeavesStaleEntry` for the other case. */
  predicate DrainSafe(m: Msg) { m.sentDiscon || !m.availRead || !m.writing }

  lemma {:induction false} DrainWritFacts(w: Work)
    requires w.m.discon && (w.m.availWrit <==> w.m.writQ != []) && (w.m.availWrit ==> !w.m.writing)
    ensures var r := DrainWrit(w);
      && r.m.writQ == [] && !r.m.availWrit && r.m.writing == w.m.writing
      && SameInbox(w.m, r.m) && SameLife(w.m, r.m)
      && r.m.incomplete == w.m.incomplete && r.m.nWrit == w.m.nWrit
      && r.emit == w.emit && r.push == w.push && r.drop == w.drop && r.freed == w.freed
    decreases |w.m.writQ|
  {
    hide PopWrit;
    if w.m.availWrit {
      PopDiscon(w);
      DrainWritFacts(PopWrit(w));
    }
  }

  /** Popping a packet of a disconnected message that is not on the send list. */
  lemma PopDiscon(w: Work)
    requires w.m.discon && (w.m.availWrit <==> w.m.writQ != []) && w.m.writQ != [] && !w.m.writing
    ensures var r := PopWrit(w);
      && r.m.discon && (r.m.availWrit <==> r.m.writQ != []) && |r.m.writQ| < |w.m.writQ| && !r.m.writing
      && SameInbox(w.m, r.m) && SameLife(w.m, r.m)
      && r.m.incomplete == w.m.incomplete && r.m.nWrit == w.m.nWrit
      && r.emit == w.emit && r.push == w.push && r.drop == w.drop && r.freed == w.freed
  {
  }

  lemma RecvDisconFacts(m: Msg, h: int)
    requires MsgOk(m, h) && !m.sentDiscon && DrainSafe(m)
    ensures var w := RecvResp(m, Discon);
      && MsgOk(w.m, h) && SchedKept(m, w) && !w.freed
      && w.m.discon && w.m.closed == m.closed && w.m.typ == m.typ
      && w.m.msgid == m.msgid && w.m.imsgid == 0
      && w.m.nRead == m.nRead && w.m.nWrit == m.nWrit
      && w.emit == [Discon] && w.m.Unread() == m.Unread()
  {
    if m.availRead {
      DrainWritFacts(Disconnect(Start(m)).(m := Disconnect(Start(m)).m.(discon := true, imsgid := 0)));
    }
  }

  lemma FreedFacts(m: Msg, h: int)
    requires MsgOk(m, h) && m.sentDiscon
    ensures var w := Free(Start(m)); w.emit == [] && w.push == 0 && !w.drop && w.freed && !m.writing
  {
  }

  /** The defect behind `DrainSafe`: a disconnect that arrives while the message waits on the send
      list with its flag for reading set empties its send queue but leaves it on the list, where
      the next send finds nothing to pop. In every other case the list stays right. */
  lemma DrainLeavesStaleEntry(m: Msg, h: int)
    requires MsgOk(m, h) && !m.sentDiscon
    ensures SchedKept(m, RecvResp(m, Discon)) <==> DrainSafe(m)
    ensures !DrainSafe(m) ==> var w := RecvResp(m, Discon); w.m.writQ == [] && !w.drop && m.writing && !w.m.writing
  {
    if DrainSafe(m) {
      RecvDisconFacts(m, h);
    } else {
      var w := Disconnect(Start(m)).(m := Disconnect(Start(m)).m.(discon := true, imsgid := 0));
      DrainWritFacts(PopWrit(w));
    }
  }

  // ---------- closing ----------

  lemma DrainReadFacts(w: Work)
    requires (w.m.availRead <==> w.m.readQ != []) && |w.m.readQ| <= N_BUFF_PACKETS && !w.m.discon
    requires (w.m.spaceRead <==> |w.m.readQ| < N_BUFF_PACKETS) && (w.m.needResp <==> |w.m.readQ| == N_BUFF_PACKETS)
    requires w.m.availWrit ==> w.m.waiting || w.m.writing
    requires w.m.readQ == [] ==> w.m.readPos == 0
    ensures var r := DrainRead(w);
      && r.m == w.m.(readQ := [], readPos := 0, availRead := false, needResp := false, spaceRead := true)
      && r.emit == w.emit + (if w.m.needResp then [Ok] else [])
      && r.push == w.push && r.drop == w.drop && r.freed == w.freed
  {
    if w.m.availRead {
      var w1 := PopRead(w);
      if w1.m.availRead {
        var w2 := PopRead(w1);
        assert !w2.m.availRead && DrainRead(w1) == w2;
      }
    }
  }

  lemma CloseTailFacts(m: Msg, w: Work, h: int)
    requires MsgOk(m, h) && !m.closed && !m.discon && WriteOnly(m, w, h, []) && w.m.incomplete.None?
    ensures var w1 := w.(m := w.m.(closed := true));
      var r := CloseTail(w1);
      && r.m == w1.m.(readQ := [], readPos := 0, availRead := false, needResp := false, spaceRead := true,
                      sentDiscon := !w.m.availWrit)
      && r.emit == (if w.m.availWrit then [] else [Discon]) + (if m.needResp then [Ok] else [])
      && r.push == w.push && !r.drop && !r.freed
  {
    hide PopRead, Flat;
    var w1 := w.(m := w.m.(closed := true));
    DrainReadFacts(if !w1.m.availWrit then Disconnect(w1) else w1);
  }

  lemma CloseFacts(m: Msg, h: int)
    requires MsgOk(m, h) && !m.closed && !m.discon
    ensures var (w, res) := Close(m);
      && SchedKept(m, w) && !w.drop && res == Count(0)
      && (w.freed <==> m.writQ == [] && m.incomplete.None? && m.nWrit == 0 && m.nRead == 0)
      && (w.freed ==> w.emit == [])
      && (!w.freed ==> CloseKept(m, w, h))
  {
    FlushFacts(m, h);
    CloseTailFacts(m, FlushOpen(Start(m)), h);
    hide FlushOpen, CloseTail, Flat;
  }

  predicate CloseKept(m: Msg, w: Work, h: int) {
    && MsgOk(w.m, h) && w.m.closed && !w.m.discon && w.m.typ == m.typ
    && w.m.msgid == m.msgid && w.m.imsgid == m.imsgid
    && w.m.waiting == m.waiting && w.m.nWrit == m.nWrit && w.m.nRead == m.nRead
    && w.m.Outgoing() == m.Outgoing() && !w.m.needResp
    && w.m.sentDiscon == (w.m.writQ == [])
    && (w.m.writQ == [] <==> m.writQ == [] && m.incomplete.None?)
    && w.emit == (if w.m.sentDiscon then [Discon] else []) + (if m.needResp then [Ok] else [])
  }

  // ---------- identity ----------

  /** No operation changes who the message is, except that a disconnect forgets the peer's id; and
      nothing is answered once disconnected. */
  predicate Conforms(m: Msg, w: Work) {
    && w.m.msgid == m.msgid
    && (m.discon ==> w.emit == [])
    && (!w.freed ==> w.m.typ == m.typ)
    && (!w.freed ==> w.m.imsgid == (if w.m.discon && !m.discon then 0 else m.imsgid) && (m.discon ==> w.m.discon))
  }
}
