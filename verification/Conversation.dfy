/** One message seen from both of its ends: the record each switch keeps, and the two streams of
    frames between them. A stream holds, in order of departure, every frame of this message that the
    other end has still to receive: those on the wire, then the responses that wait to be sent. */
module Conversation {
  import opened MsgCore
  import opened MsgFacts

  datatype Frame = Pack(p: Packet) | Resp(st: Status)

  datatype Stage = NotYet | Live(m: Msg) | Gone

  /** One end. `h` is the header id of everything this end sends and `sched` the number of its
      entries on the send list; `written`, `delivered`, `discons`, `gotDiscon` and `eof` record the
      bytes accepted by `msg_write`, the bytes returned by `msg_read`, the disconnects sent, whether
      the peer's disconnect arrived, and whether `msg_read` reported the end of the message. */
  datatype End = End(stage: Stage, h: int, sched: nat, written: Bytes, delivered: Bytes,
                     discons: nat, gotDiscon: bool, eof: bool)

  /** `a` opened the message, `b` is created by the first packet. */
  datatype Conv = Conv(a: End, b: End, ab: seq<Frame>, ba: seq<Frame>)

  datatype Act = Write(data: Bytes) | Flush | Read(size: nat) | Accept | Close | Send | Recv(newId: nat)

  function Swap(c: Conv): Conv { Conv(c.b, c.a, c.ba, c.ab) }

  // ---------- streams ----------

  function NPack(s: seq<Frame>): nat { if s == [] then 0 else Bit(s[0].Pack?) + NPack(s[1..]) }
  function NOk(s: seq<Frame>): nat { if s == [] then 0 else Bit(s[0] == Resp(Ok)) + NOk(s[1..]) }
  function NDiscon(s: seq<Frame>): nat { if s == [] then 0 else Bit(s[0] == Resp(Discon)) + NDiscon(s[1..]) }
  function Data(s: seq<Frame>): Bytes {
    if s == [] then [] else (if s[0].Pack? then s[0].p.data else []) + Data(s[1..])
  }

  /** No packet follows a disconnect. */
  predicate Ordered(s: seq<Frame>) {
    s == [] || ((s[0] == Resp(Discon) ==> NPack(s[1..]) == 0) && Ordered(s[1..]))
  }

  predicate AllStamped(s: seq<Frame>, h: int) {
    forall f | f in s :: f.Pack? ==> f.p.msgid == h
  }

  function Resps(e: seq<Status>): (r: seq<Frame>)
    ensures |r| == |e| && forall f | f in r :: f.Resp?
  {
    if e == [] then [] else [Resp(e[0])] + Resps(e[1..])
  }

  lemma {:induction false} AppendCounts(s: seq<Frame>, t: seq<Frame>)
    ensures NPack(s + t) == NPack(s) + NPack(t)
    ensures NOk(s + t) == NOk(s) + NOk(t)
    ensures NDiscon(s + t) == NDiscon(s) + NDiscon(t)
    ensures Data(s + t) == Data(s) + Data(t)
    ensures Ordered(s) && Ordered(t) && (NDiscon(s) == 0 || NPack(t) == 0) ==> Ordered(s + t)
  {
    if s == [] {
      assert s + t == t;
    } else {
      AppendCounts(s[1..], t);
      assert (s + t)[0] == s[0] && (s + t)[1..] == s[1..] + t;
    }
  }

  lemma {:induction false} RespsCounts(e: seq<Status>)
    ensures NPack(Resps(e)) == 0 && Data(Resps(e)) == [] && Ordered(Resps(e))
    ensures NOk(Resps(e)) == CountOk(e) && NDiscon(Resps(e)) == CountDiscon(e)
  {
    if e != [] {
      RespsCounts(e[1..]);
      assert Resps(e)[1..] == Resps(e[1..]);
    }
  }

  lemma {:induction false} HeadCounts(s: seq<Frame>)
    requires s != []
    ensures NPack(s) == Bit(s[0].Pack?) + NPack(s[1..]) && NOk(s) == Bit(s[0] == Resp(Ok)) + NOk(s[1..])
    ensures NDiscon(s) == Bit(s[0] == Resp(Discon)) + NDiscon(s[1..])
    ensures Data(s) == (if s[0].Pack? then s[0].p.data else []) + Data(s[1..])
  {
  }

  // ---------- steps of the opener; `Swap` gives those of the other end ----------

  /** What the caller or the scheduler must offer for the step to happen. */
  predicate Possible(c: Conv, act: Act) {
    match act
    case Write(_) => c.a.stage.Live?
    case Read(_) => c.a.stage.Live?
    case Accept => c.a.stage.Live?
    case Close => c.a.stage.Live?
    case Send => c.a.sched > 0
    case Flush => c.a.stage.Live?
    case Recv(newId) => c.ba != [] && newId > 0
  }

  /** The steps that keep the promises: neither a flush that finds something after a disconnect nor a
      disconnect met while sending. */
  predicate Guarded(c: Conv, act: Act) {
    && (act.Flush? && c.a.stage.Live? ==> FlushSafe(c.a.stage.m))
    && (act.Recv? && c.ba != [] && c.a.stage.Live? && c.ba[0] == Resp(Discon) ==> DrainSafe(c.a.stage.m))
  }

  predicate Enabled(c: Conv, act: Act) { Possible(c, act) && Guarded(c, act) }

  predicate FlushSafe(m: Msg) { m.discon && !m.closed ==> m.incomplete.None? }

  /** What the code of the step relies on: its assertions, and that it finds what it dereferences. */
  predicate Safe(c: Conv, act: Act)
    requires Possible(c, act)
  {
    match act
    case Write(_) => var m := c.a.stage.m; m.incomplete.Some? ==> |m.incomplete.value.data| <= PACK_DATA_SIZE
    case Read(_) => var m := c.a.stage.m; !m.closed && m.availRead ==> Reading(m)
    case Accept => true
    case Close => var m := c.a.stage.m; !m.closed && m.availRead ==> m.readQ != []
    case Send => c.a.stage.Live? && c.a.stage.m.writQ != []
    case Flush => true
    case Recv(_) =>
      match c.ba[0]
      case Pack(p) => (c.a.stage.NotYet? && p.msgid < 0) || (c.a.stage.Live? && !c.a.stage.m.discon)
      case Resp(st) =>
        c.a.stage.Live? ==>
          if c.a.stage.m.discon then st.Ok?
          else RespExpected(c.a.stage.m, st) && (c.a.stage.m.availWrit ==> c.a.stage.m.writQ != [])
  }

  function Absorb(x: End, w: Work): End {
    x.(stage := if w.freed then Gone else Live(w.m),
       sched := (if w.drop && x.sched > 0 then x.sched - 1 else x.sched) + w.push,
       discons := x.discons + CountDiscon(w.emit))
  }

  function Local(c: Conv, w: Work): Conv {
    c.(a := Absorb(c.a, w), ab := c.ab + Resps(w.emit))
  }

  function Step(c: Conv, act: Act): Conv
    requires Possible(c, act) && Safe(c, act)
  {
    match act
    case Write(data) =>
      var (w, res) := MsgCore.Write(c.a.stage.m, data);
      var d := Local(c, w);
      if res.Count? then d.(a := d.a.(written := d.a.written + data)) else d
    case Flush => Local(c, MsgCore.Flush(c.a.stage.m).0)
    case Read(size) =>
      var (w, res, out) := MsgCore.Read(c.a.stage.m, size);
      var d := Local(c, w);
      d.(a := d.a.(delivered := d.a.delivered + out, eof := d.a.eof || (!c.a.stage.m.availRead && res.Count?)))
    case Accept => Local(c, MsgCore.Accept(c.a.stage.m))
    case Close => Local(c, MsgCore.Close(c.a.stage.m).0)
    case Send => SendPack(c)
    case Recv(newId) => Receive(c.(ba := c.ba[1..]), c.ba[0], newId)
  }

  function SendPack(c: Conv): Conv
    requires c.a.sched > 0 && c.a.stage.Live? && c.a.stage.m.writQ != []
  {
    var m := c.a.stage.m;
    var c1 := c.(a := c.a.(sched := c.a.sched - 1));
    Local(c1.(ab := c1.ab + [Pack(m.writQ[0])]), PopWrit(Start(m)))
  }

  function Receive(c: Conv, f: Frame, newId: nat): Conv
    requires f.Pack? ==> c.a.stage.NotYet? || c.a.stage.Live?
    requires f.Resp? && c.a.stage.Live? && !c.a.stage.m.discon ==>
      RespExpected(c.a.stage.m, f.st) && (c.a.stage.m.availWrit ==> c.a.stage.m.writQ != [])
  {
    match f
    case Pack(p) =>
      var m := if c.a.stage.Live? then c.a.stage.m
               else MsgCore.Fresh(newId, if p.msgid < 0 then -p.msgid else p.msgid, p.typ);
      Local(c, RecvPack(m, p))
    case Resp(st) =>
      var d := if st.Discon? then c.(a := c.a.(gotDiscon := true)) else c;
      if c.a.stage.Live? && !c.a.stage.m.discon then Local(d, RecvResp(c.a.stage.m, st)) else d
  }

  // ---------- the invariant ----------

  function Need(x: End): nat { Bit(x.stage.Live? && x.stage.m.needResp && !x.stage.m.discon) }

  /** Acknowledgement tokens of the direction from x to y: the packet on its way, the
      acknowledgement y owes, and the acknowledgements on their way back. */
  function Tokens(y: End, xy: seq<Frame>, yx: seq<Frame>): nat { NPack(xy) + Need(y) + NOk(yx) }

  function Pending(x: End): Bytes { if x.stage.Live? then x.stage.m.Outgoing() else [] }
  function Inbox(x: End): Bytes { if x.stage.Live? then x.stage.m.Unread() else [] }

  predicate EndOk(x: End) {
    && x.discons <= 1
    && match x.stage
       case NotYet => x.sched == 0 && x.written == [] && x.delivered == [] && x.discons == 0 && !x.gotDiscon && !x.eof && x.h > 0
       case Live(m) =>
         && MsgOk(m, x.h) && x.sched == Bit(m.writing)
         && (m.sentDiscon <==> x.discons == 1) && (x.gotDiscon <==> m.discon)
         && (x.eof ==> m.discon && m.readQ == [])
       case Gone => x.sched == 0
  }

  predicate Unused(m: Msg) { m.nWrit == 0 && m.nRead == 0 }

  /** Stop-and-wait: at most one token, and a sender waits exactly while there is one. */
  predicate Window(x: End, y: End, xy: seq<Frame>, yx: seq<Frame>) {
    && Tokens(y, xy, yx) <= 1
    && (x.stage.NotYet? ==> Tokens(y, xy, yx) == 0)
    && (x.stage.Live? && !x.stage.m.sentDiscon ==> Tokens(y, xy, yx) == Bit(x.stage.m.waiting))
  }

  /** x disconnects once, after its last packet, and by itself only after closing. */
  predicate Ending(x: End, y: End, xy: seq<Frame>) {
    && NDiscon(xy) + Bit(y.gotDiscon) == x.discons
    && Ordered(xy) && AllStamped(xy, x.h)
    && (y.gotDiscon ==> NPack(xy) == 0)
    && (x.stage.Live? && x.stage.m.discon ==> y.stage.Gone? || (y.stage.Live? && y.stage.m.closed && !y.stage.m.discon))
  }

  /** Before the first packet arrives, and of a message that never sends one. */
  predicate Startup(x: End, y: End, xy: seq<Frame>, yx: seq<Frame>) {
    && (y.stage.NotYet? ==>
        && !x.stage.NotYet? && (xy == [] || xy[0].Pack?) && yx == []
        && (x.stage.Live? ==> Opening(x.stage.m, xy)))
    && (x.stage.Live? && Unused(x.stage.m) ==> y.stage.NotYet? && xy == [] && yx == [])
    && (x.stage.Gone? && !x.gotDiscon ==> y.stage.NotYet? && xy == [] && yx == [])
  }

  /** What x wrote is what y read, what y holds, what is on its way, and what x holds. */
  predicate Fifo(x: End, y: End, xy: seq<Frame>) {
    && (y.stage.NotYet? || (y.stage.Live? && !y.stage.m.closed) ==>
        x.written == y.delivered + Inbox(y) + Data(xy) + Pending(x))
    && y.delivered <= x.written
    && (y.eof ==> y.gotDiscon && y.delivered == x.written)
  }

  /** Data flows from x to y over xy, acknowledgements come back over yx. */
  predicate Flow(x: End, y: End, xy: seq<Frame>, yx: seq<Frame>) {
    Window(x, y, xy, yx) && Ending(x, y, xy) && Startup(x, y, xy, yx) && Fifo(x, y, xy)
  }

  predicate Opening(m: Msg, xy: seq<Frame>) {
    && m.nRead == 0
    && (m.nWrit == 0 ==> xy == [] && m.writQ == [] && m.incomplete.None?)
    && (m.nWrit > 0 && !m.waiting ==> m.writQ != [] || m.incomplete.Some?)
  }

  predicate Inv(c: Conv) {
    && EndOk(c.a) && EndOk(c.b) && c.a.h == -c.b.h
    && Flow(c.a, c.b, c.ab, c.ba)
    && Flow(c.b, c.a, c.ba, c.ab)
  }

  lemma SwapInv(c: Conv)
    ensures Inv(c) <==> Inv(Swap(c))
  {
  }

  /** No step that can happen trips an assertion of the code or finds a queue it needs empty. */
  lemma EnabledIsSafe(c: Conv, act: Act)
    requires Inv(c) && Enabled(c, act)
    ensures Safe(c, act)
  {
    hide Flat;
    if act.Recv? {
      HeadCounts(c.ba);
      AppendCounts([c.ba[0]], c.ba[1..]);
    }
  }

  // ---------- steps that write ----------

  predicate SameEnd(x: End, x1: End) {
    x1.h == x.h && x1.discons == x.discons && x1.gotDiscon == x.gotDiscon && x1.eof == x.eof && x1.delivered == x.delivered
  }

  lemma WriterFlow(x: End, x1: End, y: End, xy: seq<Frame>, yx: seq<Frame>, more: Bytes)
    requires Flow(x, y, xy, yx) && SameEnd(x, x1) && x.stage.Live? && x1.stage.Live?
    requires var (m, n) := (x.stage.m, x1.stage.m);
      && !m.sentDiscon && !m.discon && SameLife(m, n) && n.waiting == m.waiting && n.nRead == m.nRead
      && n.nWrit >= m.nWrit && n.Outgoing() == m.Outgoing() + more
      && (y.stage.NotYet? && n.nWrit > 0 ==> m.waiting || n.writQ != [] || n.incomplete.Some?)
      && (n.nWrit == 0 ==> n.writQ == m.writQ && n.incomplete == m.incomplete)
    requires x1.written == x.written + more
    requires x.discons == 0
    ensures Flow(x1, y, xy, yx)
  {
    hide Flat;
    var got := y.delivered + Inbox(y) + Data(xy);
    assert (got + Pending(x)) + more == got + (Pending(x) + more);
  }

  lemma SameInboxFlow(x: End, y: End, y1: End, xy: seq<Frame>, yx: seq<Frame>)
    requires Flow(x, y, xy, yx) && SameEnd(y, y1) && y.stage.Live? && y1.stage.Live?
    requires SameInbox(y.stage.m, y1.stage.m) && SameLife(y.stage.m, y1.stage.m)
    ensures Flow(x, y1, xy, yx)
  {
    hide Flat;
    assert Inbox(y) == Inbox(y1);
  }

  lemma WriteOnlyKeeps(c: Conv, w: Work, more: Bytes)
    requires Inv(c) && c.a.stage.Live? && WriteOnly(c.a.stage.m, w, c.a.h, more)
    requires !c.a.stage.m.closed && !c.a.stage.m.discon
    requires c.b.stage.NotYet? && w.m.nWrit > 0 ==> c.a.stage.m.waiting || w.m.writQ != [] || w.m.incomplete.Some?
    requires w.m.nWrit == 0 ==> w.m.writQ == c.a.stage.m.writQ && w.m.incomplete == c.a.stage.m.incomplete
    ensures var d := Local(c, w); Inv(d.(a := d.a.(written := d.a.written + more)))
  {
    hide Flat, Flow, QueueOk;
    assert c.ab + Resps([]) == c.ab;
    var d := Local(c, w);
    var a1 := d.a.(written := d.a.written + more);
    WriterFlow(c.a, a1, c.b, c.ab, c.ba, more);
    SameInboxFlow(c.b, c.a, a1, c.ba, c.ab);
  }

  lemma NothingKeeps(c: Conv)
    requires Inv(c) && c.a.stage.Live?
    ensures Local(c, Start(c.a.stage.m)) == c
  {
    assert c.ab + Resps([]) == c.ab;
  }

  lemma WriteKeeps(c: Conv, data: Bytes)
    requires Inv(c) && Enabled(c, Write(data)) && Safe(c, Write(data))
    ensures Inv(Step(c, Write(data)))
  {
    var m := c.a.stage.m;
    WriteFacts(m, c.a.h, data);
    hide Flat, MsgCore.Write, Flow, QueueOk;
    var (w, res) := MsgCore.Write(m, data);
    if res.Count? { WriteOnlyKeeps(c, w, data); } else { NothingKeeps(c); }
  }

  lemma FlushKeeps(c: Conv)
    requires Inv(c) && Enabled(c, Flush) && Safe(c, Flush)
    ensures Inv(Step(c, Flush))
  {
    var m := c.a.stage.m;
    NothingKeeps(c);
    if !m.closed && !m.discon {
      FlushFacts(m, c.a.h);
      var w := FlushOpen(Start(m));
      assert c.b.stage.NotYet? && w.m.nWrit > 0 ==> m.waiting || w.m.writQ != [] || w.m.incomplete.Some?;
      hide Flat, Flow, QueueOk, PushWrit;
      WriteOnlyKeeps(c, w, []);
      assert Local(c, w).a.written + [] == Local(c, w).a.written;
    }
  }

  // ---------- steps that read ----------

  lemma SameOutboxFlow(x: End, x1: End, y: End, xy: seq<Frame>, yx: seq<Frame>, e: seq<Status>)
    requires Flow(x, y, xy, yx) && x.stage.Live? && x1.stage.Live?
    requires x1.h == x.h && x1.written == x.written && x1.discons == x.discons
    requires SameOutbox(x.stage.m, x1.stage.m) && SameLife(x.stage.m, x1.stage.m)
    requires x1.stage.m.nRead == x.stage.m.nRead
    requires CountDiscon(e) == 0 && (y.stage.NotYet? || Unused(x.stage.m) ==> e == [])
    ensures Flow(x1, y, xy + Resps(e), yx)
  {
    hide Flat;
    AppendCounts(xy, Resps(e));
    RespsCounts(e);
    if e == [] { assert xy + Resps(e) == xy; }
    assert Pending(x1) == Pending(x);
  }

  lemma ReaderFifo(x: End, y: End, y1: End, xy: seq<Frame>, got: Bytes)
    requires Fifo(x, y, xy) && y.stage.Live? && y1.stage.Live? && y1.gotDiscon == y.gotDiscon
    requires y1.stage.m.closed == y.stage.m.closed
    requires y.stage.m.Unread() == got + y1.stage.m.Unread() && y1.delivered == y.delivered + got
    requires y.stage.m.closed ==> got == []
    requires y1.eof == y.eof || (y1.eof && y.gotDiscon && x.written == y1.delivered)
    requires y.eof ==> got == []
    ensures Fifo(x, y1, xy)
  {
    hide Flat, Msg.Unread;
    assert (y.delivered + got) + y1.stage.m.Unread() == y.delivered + (got + y1.stage.m.Unread());
  }

  lemma ReaderFlow(x: End, y: End, y1: End, xy: seq<Frame>, yx: seq<Frame>, e: seq<Status>)
    requires Flow(x, y, xy, yx) && y.stage.Live? && y1.stage.Live?
    requires SameLife(y.stage.m, y1.stage.m) && y1.gotDiscon == y.gotDiscon
    requires y.stage.m.discon || CountOk(e) + Bit(y1.stage.m.needResp) == Bit(y.stage.m.needResp)
    requires y.stage.m.discon ==> e == []
    requires (x.stage.Gone? && !x.gotDiscon) || (x.stage.Live? && Unused(x.stage.m)) ==> e == []
    ensures Window(x, y1, xy, yx + Resps(e)) && Ending(x, y1, xy) && Startup(x, y1, xy, yx + Resps(e))
  {
    hide Fifo, Ordered, AllStamped;
    AppendCounts(yx, Resps(e));
    RespsCounts(e);
    if e == [] { assert yx + Resps(e) == yx; }
  }

  lemma {:induction false} NoPackNoData(s: seq<Frame>)
    requires NPack(s) == 0
    ensures Data(s) == []
  {
    if s != [] { NoPackNoData(s[1..]); }
  }

  /** At the end of the message nothing the peer wrote is missing. */
  lemma AllRead(c: Conv)
    requires Inv(c) && c.a.stage.Live? && c.a.stage.m.discon && !c.a.stage.m.closed && !c.a.stage.m.availRead
    ensures c.a.delivered == c.b.written
  {
    NoPackNoData(c.ba);
    assert Inbox(c.a) == [];
    assert Pending(c.b) == [];
  }

  lemma EndKeeps(c: Conv)
    requires Inv(c) && c.a.stage.Live? && c.a.stage.m.discon && !c.a.stage.m.closed && !c.a.stage.m.availRead
    ensures Inv(c.(a := c.a.(eof := true)))
  {
    AllRead(c);
    hide Flat, Data, Ordered;
  }

  lemma ReadOnlyKeeps(c: Conv, w: Work, out: Bytes)
    requires Inv(c) && c.a.stage.Live? && ReadOnly(c.a.stage.m, w, c.a.h, out)
    requires !c.a.stage.m.closed && c.a.stage.m.availRead
    ensures var d := Local(c, w); Inv(d.(a := d.a.(delivered := d.a.delivered + out)))
  {
    hide Flat, Fifo, Ending, Window, Msg.Unread;
    CountAll(w.emit);
    var d := Local(c, w);
    var a1 := d.a.(delivered := d.a.delivered + out);
    assert c.a.stage.m.nRead > 0;
    SameOutboxFlow(c.a, a1, c.b, c.ab, c.ba, w.emit);
    ReaderFlow(c.b, c.a, a1, c.ba, c.ab, w.emit);
    ReaderFifo(c.b, c.a, a1, c.ba, out);
  }

  lemma ReadKeeps(c: Conv, size: nat)
    requires Inv(c) && Enabled(c, Read(size)) && Safe(c, Read(size))
    ensures Inv(Step(c, Read(size)))
  {
    var m := c.a.stage.m;
    ReadFacts(m, c.a.h, size);
    NothingKeeps(c);
    hide Flat, MsgCore.Read, ReadOnly, Flow, MsgOk;
    var (w, res, out) := MsgCore.Read(m, size);
    if !m.closed && m.availRead {
      ReadOnlyKeeps(c, w, out);
    } else {
      assert c.a.delivered + out == c.a.delivered;
      if m.discon && !m.closed { EndKeeps(c); }
    }
  }

  // ---------- closing and accepting ----------

  /** An end that has nothing left to say may be forgotten. */
  lemma ForgetKeeps(c: Conv)
    requires Inv(c) && c.a.stage.Live? && !c.a.stage.m.writing
    requires var m := c.a.stage.m; m.discon || (Unused(m) && m.writQ == [] && m.incomplete.None?)
    ensures Inv(c.(a := c.a.(stage := Gone)))
  {
    if !c.a.stage.m.discon { assert Pending(c.a) == []; }
    hide Flat, Ordered, AllStamped;
  }

  lemma AcceptKeeps(c: Conv)
    requires Inv(c) && Enabled(c, Accept)
    ensures Inv(Step(c, Accept))
  {
    var m := c.a.stage.m;
    NothingKeeps(c);
    assert c.ab + Resps([]) == c.ab;
    if !m.closed && !m.connected {
      if m.discon {
        FreedFacts(m, c.a.h);
        ForgetKeeps(c);
      } else {
        ConnectKeeps(c);
      }
    }
  }

  lemma ConnectKeeps(c: Conv)
    requires Inv(c) && c.a.stage.Live?
    ensures Inv(c.(a := c.a.(stage := Live(c.a.stage.m.(connected := true)))))
  {
    hide Flat, Ordered, AllStamped, Data, NPack, NOk, NDiscon, Inbox, Pending, MsgOk;
    var a1 := c.a.(stage := Live(c.a.stage.m.(connected := true)));
    InboxIs(c.a, a1);
    ConnectedSame(c.a.stage.m, c.a.h);
    assert Pending(a1) == Pending(c.a) by { PendingIs(c.a, a1); }
  }

  lemma ConnectedSame(m: Msg, h: int)
    requires MsgOk(m, h)
    ensures MsgOk(m.(connected := true), h)
  {
    hide Flat;
  }

  lemma PendingIs(x: End, x1: End)
    requires x.stage.Live? && x1.stage.Live? && x.stage.m.writQ == x1.stage.m.writQ && x.stage.m.incomplete == x1.stage.m.incomplete
    ensures Pending(x1) == Pending(x)
  {
    hide Flat;
  }

  lemma CloserFlow(x: End, x1: End, y: End, xy: seq<Frame>, yx: seq<Frame>, w: Work)
    requires EndOk(x) && EndOk(y) && Flow(x, y, xy, yx) && x.stage.Live? && x1.stage == Live(w.m)
    requires !x.stage.m.closed && !x.stage.m.discon && !Unused(x.stage.m)
    requires CloseKept(x.stage.m, w, x.h)
    requires x1.h == x.h && x1.written == x.written && x1.discons == x.discons + CountDiscon(w.emit)
    ensures Flow(x1, y, xy + Resps(w.emit), yx)
  {
    hide Flat, Msg.Outgoing, Msg.Unread;
    AppendCounts(xy, Resps(w.emit));
    RespsCounts(w.emit);
    assert y.stage.NotYet? && xy == [] ==> w.emit == [];
    if w.emit == [] { assert xy + Resps(w.emit) == xy; }
  }

  lemma ClosedFlow(x: End, y: End, y1: End, xy: seq<Frame>, yx: seq<Frame>, e: seq<Status>)
    requires Flow(x, y, xy, yx) && y.stage.Live? && y1.stage.Live?
    requires !y.stage.m.discon && y1.stage.m.closed && !y1.stage.m.discon && !y1.stage.m.needResp
    requires CountOk(e) == Bit(y.stage.m.needResp)
    requires y1.delivered == y.delivered && y1.eof == y.eof && y1.gotDiscon == y.gotDiscon
    requires (x.stage.Gone? && !x.gotDiscon) || (x.stage.Live? && Unused(x.stage.m)) ==> e == []
    ensures Flow(x, y1, xy, yx + Resps(e))
  {
    hide Flat, Msg.Outgoing, Msg.Unread, Ordered, AllStamped;
    AppendCounts(yx, Resps(e));
    RespsCounts(e);
    if e == [] { assert yx + Resps(e) == yx; }
  }

  lemma CloseOpenKeeps(c: Conv, w: Work)
    requires Inv(c) && c.a.stage.Live? && !c.a.stage.m.closed && !c.a.stage.m.discon && !Unused(c.a.stage.m)
    requires CloseKept(c.a.stage.m, w, c.a.h) && SchedKept(c.a.stage.m, w) && !w.drop && !w.freed
    ensures Inv(Local(c, w))
  {
    EmitCounts(w.m.sentDiscon, c.a.stage.m.needResp);
    assert CountOk(w.emit) == Bit(c.a.stage.m.needResp) && CountDiscon(w.emit) == Bit(w.m.sentDiscon);
    hide Flat, Ordered, AllStamped, Data, Resps, Window, Ending, Fifo, Msg.Outgoing, Msg.Unread, QueueOk;
    var d := Local(c, w);
    CloserFlow(c.a, d.a, c.b, c.ab, c.ba, w);
    ClosedFlow(c.b, c.a, d.a, c.ba, c.ab, w.emit);
  }

  lemma CloseKeeps(c: Conv)
    requires Inv(c) && Enabled(c, Close) && Safe(c, Close)
    ensures Inv(Step(c, Close))
  {
    var m := c.a.stage.m;
    NothingKeeps(c);
    assert c.ab + Resps([]) == c.ab;
    if m.closed {
    } else if m.discon {
      FreedFacts(m, c.a.h);
      ForgetKeeps(c);
    } else {
      CloseFacts(m, c.a.h);
      var w := MsgCore.Close(m).0;
      hide Flat, MsgCore.Close, Flow, CloseKept, QueueOk;
      if w.freed { ForgetKeeps(c); } else { CloseOpenKeeps(c, w); }
    }
  }

  // ---------- sending ----------

  lemma SenderFlow(x: End, x1: End, y: End, xy: seq<Frame>, yx: seq<Frame>, f: Frame)
    requires EndOk(x) && EndOk(y) && Flow(x, y, xy, yx) && x.stage.Live? && x1.stage.Live? && x.stage.m.writing
    requires f.Pack? && f.p.msgid == x.h
    requires x1.h == x.h && x1.written == x.written && x1.discons == x.discons
    requires var (m, n) := (x.stage.m, x1.stage.m);
      SameLife(m, n) && n.waiting && n.nRead == m.nRead && n.nWrit == m.nWrit
      && n.incomplete == m.incomplete && m.Outgoing() == f.p.data + n.Outgoing()
    ensures Flow(x1, y, xy + [f], yx)
  {
    AppendCounts(xy, [f]);
    HeadCounts([f]);
    assert [f][1..] == [] && Ordered([f]);
    hide Flat, Msg.Outgoing, Msg.Unread;
    var got := y.delivered + Inbox(y) + Data(xy);
    assert got + (f.p.data + Pending(x1)) == y.delivered + Inbox(y) + (Data(xy) + f.p.data) + Pending(x1);
  }

  lemma SentToFlow(x: End, y: End, y1: End, xy: seq<Frame>, yx: seq<Frame>, f: Frame)
    requires EndOk(x) && EndOk(y) && Flow(x, y, xy, yx) && y.stage.Live? && y1.stage.Live?
    requires f.Pack? && SameEnd(y, y1) && SameInbox(y.stage.m, y1.stage.m) && SameLife(y.stage.m, y1.stage.m)
    requires !Unused(y.stage.m) && (x.stage.Live? ==> !Unused(x.stage.m))
    requires x.stage.Gone? ==> x.gotDiscon
    ensures Flow(x, y1, xy, yx + [f])
  {
    AppendCounts(yx, [f]);
    HeadCounts([f]);
    hide Flat, Ordered, AllStamped;
    assert Inbox(y) == Inbox(y1);
  }

  lemma SendKeeps(c: Conv)
    requires Inv(c) && Enabled(c, Send) && Safe(c, Send)
    ensures Inv(Step(c, Send))
  {
    var m := c.a.stage.m;
    PopWritFacts(m, c.a.h);
    var f := Pack(m.writQ[0]);
    var w := PopWrit(Start(m));
    assert c.ab + [f] + Resps(w.emit) == c.ab + [f];
    var d := Step(c, Send);
    assert !Unused(m);
    hide Flat, PopWrit, QueueOk, Ordered, AllStamped, Data, Msg.Outgoing, Msg.Unread;
    SenderFlow(c.a, d.a, c.b, c.ab, c.ba, f);
    SentToFlow(c.b, c.a, d.a, c.ba, c.ab, f);
  }

  // ---------- receiving ----------

  /** The record that takes a packet: the one there, or the one created for it. */
  function Receiver(x: End, p: Packet, newId: nat): Msg
    requires x.stage.NotYet? || x.stage.Live?
  {
    if x.stage.Live? then x.stage.m
    else MsgCore.Fresh(newId, if p.msgid < 0 then -p.msgid else p.msgid, p.typ)
  }

  /** How the end y changes, from a record m that is there or about to be created, to take a packet. */
  predicate Takes(y: End, m: Msg, y1: End, n: Msg, e: seq<Status>) {
    && (y.stage == Live(m) || (y.stage.NotYet? && Opener(m)))
    && y1 == y.(stage := Live(n)) && !y.gotDiscon && !m.discon && !n.discon && n.nRead > 0
    && n.closed == m.closed && n.sentDiscon == m.sentDiscon && n.waiting == m.waiting
    && n.Outgoing() == m.Outgoing()
    && e == (if n.needResp then [] else [Ok])
  }

  predicate Opener(m: Msg) {
    !m.closed && !m.sentDiscon && !m.needResp && !m.waiting && m.Outgoing() == [] && m.Unread() == []
  }

  lemma PackTakenFifo(x: End, y: End, y1: End, xy: seq<Frame>, m: Msg, n: Msg)
    requires Fifo(x, y, xy) && xy != [] && xy[0].Pack? && y1 == y.(stage := Live(n))
    requires y.stage == Live(m) || (y.stage.NotYet? && Opener(m))
    requires n.closed == m.closed && (!m.closed ==> n.Unread() == m.Unread() + xy[0].p.data)
    ensures Fifo(x, y1, xy[1..])
  {
    HeadCounts(xy);
    hide Flat, Msg.Outgoing, Msg.Unread;
    if !m.closed {
      assert y.delivered + (m.Unread() + xy[0].p.data) + Data(xy[1..]) == y.delivered + m.Unread() + (xy[0].p.data + Data(xy[1..]));
    }
  }

  lemma PackTakenFlow(x: End, y: End, y1: End, xy: seq<Frame>, yx: seq<Frame>, m: Msg, n: Msg, e: seq<Status>)
    requires Flow(x, y, xy, yx) && xy != [] && xy[0].Pack? && Takes(y, m, y1, n, e) && Fifo(x, y1, xy[1..])
    ensures Flow(x, y1, xy[1..], yx + Resps(e))
  {
    hide Flat, Msg.Outgoing, Msg.Unread, Fifo;
    HeadCounts(xy);
    AppendCounts(yx, Resps(e));
    RespsCounts(e);
  }

  lemma PackTakerFlow(x: End, x1: End, y: End, xy: seq<Frame>, yx: seq<Frame>, m: Msg, n: Msg, e: seq<Status>)
    requires Flow(x, y, xy, yx) && yx != [] && yx[0].Pack? && Takes(x, m, x1, n, e)
    requires !y.stage.NotYet? && (x.stage.NotYet? ==> xy == [])
    ensures Flow(x1, y, xy + Resps(e), yx[1..])
  {
    hide Flat, Msg.Outgoing, Msg.Unread;
    HeadCounts(yx);
    AppendCounts(xy, Resps(e));
    RespsCounts(e);
  }

  lemma RecvPackTakes(c: Conv, p: Packet, newId: nat)
    requires Inv(c) && c.ba != [] && c.ba[0] == Pack(p) && newId > 0
    requires c.a.stage.NotYet? || (c.a.stage.Live? && !c.a.stage.m.discon)
    ensures var (m, w) := (Receiver(c.a, p, newId), RecvPack(Receiver(c.a, p, newId), p));
      && Takes(c.a, m, c.a.(stage := Live(w.m)), w.m, w.emit)
      && CountDiscon(w.emit) == 0
      && MsgOk(w.m, c.a.h) && w.m.writing == m.writing && w.push == 0 && !w.drop && !w.freed
      && (!m.closed ==> w.m.Unread() == m.Unread() + p.data)
  {
    hide Flat, Ordered, Data, PushRead, MsgOk, RecvPack;
    ReceiverIs(c, p, newId);
    RecvPackFacts(Receiver(c.a, p, newId), c.a.h, p);
  }

  lemma ReceiverIs(c: Conv, p: Packet, newId: nat)
    requires Inv(c) && c.ba != [] && c.ba[0] == Pack(p) && newId > 0
    requires c.a.stage.NotYet? || (c.a.stage.Live? && !c.a.stage.m.discon)
    ensures var m := Receiver(c.a, p, newId);
      && MsgOk(m, c.a.h) && !m.discon && !m.needResp && (c.a.stage.NotYet? ==> Opener(m)) && !c.a.gotDiscon
  {
    hide Flat, Ordered, Data;
    HeadCounts(c.ba);
    assert c.ba[0] in c.ba;
    FlatNone();
  }

  lemma FlatNone()
    ensures Flat([]) == []
  {
  }

  lemma RecvPackKeeps(c: Conv, newId: nat)
    requires Inv(c) && Enabled(c, Recv(newId)) && Safe(c, Recv(newId)) && c.ba[0].Pack?
    ensures Inv(Step(c, Recv(newId)))
  {
    hide Flat, RecvPack, MsgOk, Msg.Outgoing, Msg.Unread, Opener, Ordered, AllStamped, Data, NPack, NOk, NDiscon;
    var p := c.ba[0].p;
    var m := Receiver(c.a, p, newId);
    RecvPackTakes(c, p, newId);
    var w := RecvPack(m, p);
    var d := Step(c, Recv(newId));
    assert d.a == c.a.(stage := Live(w.m));
    PackTakenFifo(c.b, c.a, d.a, c.ba, m, w.m);
    PackTakenFlow(c.b, c.a, d.a, c.ba, c.ab, m, w.m, w.emit);
    PackTakerFlow(c.a, d.a, c.b, c.ab, c.ba, m, w.m, w.emit);
  }

  /** An acknowledgement that reaches an end after its own disconnect changes nothing. */
  lemma StaleOkKeeps(c: Conv)
    requires Inv(c) && c.ba != [] && c.ba[0] == Resp(Ok)
    requires c.a.stage.Gone? || (c.a.stage.Live? && c.a.stage.m.sentDiscon)
    ensures Inv(c.(ba := c.ba[1..]))
  {
    hide Flat, Msg.Outgoing, Msg.Unread, MsgOk;
    HeadCounts(c.ba);
    assert Ordered(c.ba[1..]) && AllStamped(c.ba[1..], c.b.h);
  }

  lemma OkSenderFlow(x: End, x1: End, y: End, xy: seq<Frame>, yx: seq<Frame>, n: Msg, e: seq<Status>)
    requires Flow(x, y, xy, yx) && yx != [] && yx[0] == Resp(Ok) && x.stage.Live? && x1.stage == Live(n)
    requires !x.stage.m.sentDiscon && !n.discon && !n.waiting && n.Outgoing() == x.stage.m.Outgoing()
    requires n.nWrit == x.stage.m.nWrit && n.nRead == x.stage.m.nRead
    requires x1.h == x.h && x1.written == x.written && x1.discons == x.discons + CountDiscon(e) && CountOk(e) == 0
    ensures Flow(x1, y, xy + Resps(e), yx[1..])
  {
    hide Flat, Msg.Outgoing, Msg.Unread;
    HeadCounts(yx);
    AppendCounts(xy, Resps(e));
    RespsCounts(e);
  }

  lemma OkReceiverFlow(x: End, y: End, y1: End, xy: seq<Frame>, yx: seq<Frame>, e: seq<Status>)
    requires Flow(x, y, xy, yx) && xy != [] && xy[0] == Resp(Ok) && y.stage.Live? && y1.stage.Live?
    requires SameEnd(y, y1.(discons := y.discons)) && SameInbox(y.stage.m, y1.stage.m)
    requires y1.stage.m.closed == y.stage.m.closed && !y.stage.m.discon && !y1.stage.m.discon
    requires CountOk(e) == 0
    ensures Flow(x, y1, xy[1..], yx + Resps(e))
  {
    hide Flat, Data, NPack, NOk, NDiscon, Inbox, Pending, Msg.Unread, Msg.Outgoing, Resps, CountOk, CountDiscon;
    HeadCounts(xy);
    AppendCounts(yx, Resps(e));
    RespsCounts(e);
    InboxIs(y, y1);
  }

  lemma InboxIs(y: End, y1: End)
    requires y.stage.Live? && y1.stage.Live? && SameInbox(y.stage.m, y1.stage.m)
    ensures Inbox(y1) == Inbox(y)
  {
    hide Flat;
  }

  lemma OkAwaited(c: Conv)
    requires Inv(c) && c.ba != [] && c.ba[0] == Resp(Ok) && c.a.stage.Live? && !c.a.stage.m.sentDiscon
    ensures MsgOk(c.a.stage.m, c.a.h) && c.a.stage.m.waiting && !c.a.stage.m.discon
  {
    hide Flat, Data, Ordered;
    HeadCounts(c.ba);
  }

  lemma OkTakenKeeps(c: Conv, newId: nat)
    requires Inv(c) && Enabled(c, Recv(newId)) && Safe(c, Recv(newId)) && c.ba[0] == Resp(Ok)
    requires c.a.stage.Live? && !c.a.stage.m.sentDiscon
    ensures Inv(Step(c, Recv(newId)))
  {
    hide Flat, RecvResp, MsgOk, Flow, Msg.Outgoing, Msg.Unread, CountOk, CountDiscon;
    var m := c.a.stage.m;
    OkAwaited(c);
    RecvOkFacts(m, c.a.h);
    var w := RecvResp(m, Ok);
    EmitCounts(w.m.sentDiscon, false);
    assert w.emit == (if w.m.sentDiscon then [Discon] else []) + [];
    var d := Step(c, Recv(newId));
    OkSenderFlow(c.a, d.a, c.b, c.ab, c.ba, w.m, w.emit);
    OkReceiverFlow(c.b, c.a, d.a, c.ba, c.ab, w.emit);
  }

  lemma OkDroppedKeeps(c: Conv, newId: nat)
    requires Inv(c) && Enabled(c, Recv(newId)) && Safe(c, Recv(newId)) && c.ba[0] == Resp(Ok)
    requires c.a.stage.Live? ==> c.a.stage.m.sentDiscon
    ensures Inv(Step(c, Recv(newId)))
  {
    hide MsgOk, Flow;
    if c.a.stage.NotYet? { NotYetHead(c); }
    StaleOkKeeps(c);
    assert c.ab + Resps([]) == c.ab;
  }

  lemma RecvOkKeeps(c: Conv, newId: nat)
    requires Inv(c) && Enabled(c, Recv(newId)) && Safe(c, Recv(newId)) && c.ba[0] == Resp(Ok)
    ensures Inv(Step(c, Recv(newId)))
  {
    hide *;
    if c.a.stage.Live? && !c.a.stage.m.sentDiscon { OkTakenKeeps(c, newId); } else { OkDroppedKeeps(c, newId); }
  }

  lemma NotYetHead(c: Conv)
    requires Inv(c) && c.a.stage.NotYet? && c.ba != []
    ensures c.ba[0].Pack?
  {
  }

  /** A disconnect finds its receiver alive and not yet told. */
  lemma DisconFindsLive(c: Conv)
    requires Inv(c) && c.ba != [] && c.ba[0] == Resp(Discon)
    ensures c.a.stage.Live? && !c.a.stage.m.discon && !c.a.gotDiscon && NPack(c.ba[1..]) == 0 && NDiscon(c.ba[1..]) == 0
    ensures c.b.stage.Gone? || (c.b.stage.Live? && c.b.stage.m.sentDiscon)
    ensures !c.a.stage.m.sentDiscon ==> c.b.stage.Gone? || (c.b.stage.m.closed && !c.b.stage.m.discon)
    ensures !c.a.stage.m.sentDiscon ==> !c.b.eof && !c.b.gotDiscon
  {
    HeadCounts(c.ba);
    hide Flat;
  }

  /** The closer forgets the message when the answer to its disconnect arrives. */
  lemma AnswerKeeps(c: Conv)
    requires Inv(c) && c.ba != [] && c.ba[0] == Resp(Discon) && c.a.stage.Live? && c.a.stage.m.sentDiscon
    ensures Inv(c.(a := c.a.(stage := Gone, gotDiscon := true), ba := c.ba[1..]))
  {
    DisconFindsLive(c);
    HeadCounts(c.ba);
    assert Ordered(c.ba[1..]) && AllStamped(c.ba[1..], c.b.h);
    assert Pending(c.a) == [] by { FlatNone(); }
    hide Flat;
  }

  lemma ToldFlow(x: End, x1: End, y: End, xy: seq<Frame>, yx: seq<Frame>, n: Msg)
    requires Flow(x, y, xy, yx) && yx != [] && yx[0] == Resp(Discon) && x.stage.Live? && x1.stage == Live(n)
    requires !x.stage.m.sentDiscon && n.sentDiscon && n.discon && x.discons == 0
    requires n.nWrit == x.stage.m.nWrit && n.nRead == x.stage.m.nRead
    requires x1.h == x.h && x1.written == x.written && x1.discons == 1
    requires y.stage.Gone? || (y.stage.Live? && y.stage.m.closed && !y.stage.m.discon)
    ensures Flow(x1, y, xy + Resps([Discon]), yx[1..])
  {
    hide Flat, Msg.Outgoing, Msg.Unread;
    HeadCounts(yx);
    AppendCounts(xy, Resps([Discon]));
    RespsCounts([Discon]);
    EmitCounts(true, false);
    assert [Discon] + [] == [Discon];
  }

  lemma TellerFlow(x: End, y: End, y1: End, xy: seq<Frame>, yx: seq<Frame>)
    requires Flow(x, y, xy, yx) && xy != [] && xy[0] == Resp(Discon) && y.stage.Live? && y1.stage.Live?
    requires !y.gotDiscon && y1.gotDiscon && y1.stage.m.discon && !y.eof && !y1.eof && y1.delivered == y.delivered
    requires y1.stage.m.closed == y.stage.m.closed && y1.stage.m.Unread() == y.stage.m.Unread()
    requires NPack(xy[1..]) == 0 && NDiscon(xy[1..]) == 0 && x.discons == 1
    requires x.stage.Gone? || (x.stage.Live? && x.stage.m.sentDiscon && !x.stage.m.discon)
    ensures Flow(x, y1, xy[1..], yx + Resps([Discon]))
  {
    hide Flat, Msg.Outgoing, Msg.Unread;
    HeadCounts(xy);
    AppendCounts(yx, Resps([Discon]));
    RespsCounts([Discon]);
    EmitCounts(true, false);
    assert [Discon] + [] == [Discon];
  }

  lemma RecvDisconKeeps(c: Conv, newId: nat)
    requires Inv(c) && Enabled(c, Recv(newId)) && Safe(c, Recv(newId)) && c.ba[0] == Resp(Discon)
    ensures Inv(Step(c, Recv(newId)))
  {
    DisconFindsLive(c);
    var m := c.a.stage.m;
    if m.sentDiscon {
      FreedFacts(m, c.a.h);
      AnswerKeeps(c);
      assert c.ab + Resps([]) == c.ab;
      hide Flow;
    } else {
      RecvDisconFacts(m, c.a.h);
      HeadCounts(c.ba);
      var w := RecvResp(m, Discon);
      EmitCounts(true, false);
      assert [Discon] + [] == w.emit;
      assert c.b.discons == 1;
      hide Flat, RecvResp, QueueOk, Ordered, AllStamped, Data, Msg.Outgoing, Msg.Unread, Flow;
      var d := Step(c, Recv(newId));
      ToldFlow(c.a, d.a, c.b, c.ab, c.ba, w.m);
      TellerFlow(c.b, c.a, d.a, c.ba, c.ab);
    }
  }

  /** Every step keeps the invariant of the conversation. */
  lemma StepKeeps(c: Conv, act: Act)
    requires Inv(c) && Enabled(c, act)
    ensures Safe(c, act) && Inv(Step(c, act))
  {
    EnabledIsSafe(c, act);
    hide Step, Inv, Safe;
    match act
    case Write(data) => WriteKeeps(c, data);
    case Flush => FlushKeeps(c);
    case Read(size) => ReadKeeps(c, size);
    case Accept => AcceptKeeps(c);
    case Close => CloseKeeps(c);
    case Send => SendKeeps(c);
    case Recv(newId) =>
      match c.ba[0]
      case Pack(_) => RecvPackKeeps(c, newId);
      case Resp(st) =>
        if st.Ok? { RecvOkKeeps(c, newId); } else { RecvDisconKeeps(c, newId); }
  }

  // ---------- the start of a conversation ----------

  function NotYetEnd(h: int): End { End(NotYet, h, 0, [], [], 0, false, false) }

  function Opened(id: nat, typ: int): Conv {
    Conv(End(Live(MsgCore.Fresh(id, 0, typ).(connected := true)), -(id as int), 0, [], [], 0, false, false),
         NotYetEnd(id), [], [])
  }

  lemma OpenedInv(id: nat, typ: int)
    requires id > 0
    ensures Inv(Opened(id, typ))
  {
    FlatNone();
  }
}
