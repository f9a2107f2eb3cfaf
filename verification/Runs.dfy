/** What holds in every run of two switches, whatever their users do and however the frames travel. */
module Runs {
  import opened MsgCore
  import opened MsgFacts
  import opened TwoSwitches
  import C = Conversation

  /** `first` tells which of the two switches makes the move. */
  datatype Event = Event(first: bool, mv: Move)

  function Side(s: System, first: bool): System { if first then s else Swap(s) }

  ghost predicate Reaches(s: System, run: seq<Event>, t: System)
    decreases |run|
  {
    if run == [] then s == t
    else
      var s0 := Side(s, run[0].first);
      Enabled(s0, run[0].mv) && Safe(s0, run[0].mv) &&
      Reaches(Side(Step(s0, run[0].mv), run[0].first), run[1..], t)
  }

  ghost predicate Reachable(t: System) { exists run :: Reaches(START, run, t) }

  lemma {:induction false} RunKeeps(s: System, run: seq<Event>, t: System)
    requires Inv(s) && Reaches(s, run, t)
    ensures Inv(t)
    decreases |run|
  {
    if run != [] {
      var s0 := Side(s, run[0].first);
      SwapInv(s);
      TwoSwitches.StepKeeps(s0, run[0].mv);
      SwapInv(Step(s0, run[0].mv));
      RunKeeps(Side(Step(s0, run[0].mv), run[0].first), run[1..], t);
    }
  }

  /** One more step of a run. */
  lemma {:induction false} Extend(s: System, run: seq<Event>, t: System, e: Event)
    requires Reaches(s, run, t)
    requires var u := Side(t, e.first); Enabled(u, e.mv) && Safe(u, e.mv)
    ensures Reaches(s, run + [e], Side(Step(Side(t, e.first), e.mv), e.first))
    decreases |run|
  {
    if run == [] {
      assert run + [e] == [e] && [e][1..] == [];
    } else {
      assert (run + [e])[0] == run[0] && (run + [e])[1..] == run[1..] + [e];
      var s0 := Side(s, run[0].first);
      Extend(Side(Step(s0, run[0].mv), run[0].first), run[1..], t, e);
    }
  }

  lemma Always(t: System)
    requires Reachable(t)
    ensures Inv(t) && Inv(Swap(t))
  {
    var run :| Reaches(START, run, t);
    StartInv();
    RunKeeps(START, run, t);
    SwapInv(t);
  }

  /** No assertion of the code fails, no queue is popped empty and no packet reaches a message that
      is gone, in any state any run leads to. */
  lemma NoAssertionFails(t: System, first: bool, mv: Move)
    requires Reachable(t) && Enabled(Side(t, first), mv)
    ensures Safe(Side(t, first), mv)
  {
    Always(t);
    TwoSwitches.StepKeeps(Side(t, first), mv);
  }

  /** The frames of a message still on their way from the first switch to the second. */
  function OnTheWay(t: System, h: int): seq<C.Frame> { Sel(t.ab + t.a.sw.resps, h) }

  lemma ConversationHolds(t: System, first: bool, n: nat)
    requires Reachable(t) && n in Side(t, first).a.past
    ensures var s := Side(t, first); var h := StampOf(s.a, n);
      && C.Inv(View(s, h)) && View(s, h).a == EndOf(s.a, n)
      && C.Flow(EndOf(s.a, n), Peer(s, n), OnTheWay(s, h), OnTheWay(Swap(s), -h))
      && C.Flow(Peer(s, n), EndOf(s.a, n), OnTheWay(Swap(s), -h), OnTheWay(s, h))
  {
    Always(t);
    var s := Side(t, first);
    ViewParts(s, StampOf(s.a, n), n);
    hide *;
    ActiveStamp(s, n);
    FlowsOf(View(s, StampOf(s.a, n)));
  }

  lemma ViewParts(s: System, h: int, n: nat)
    requires n in s.a.past && h == StampOf(s.a, n)
    ensures View(s, h) == C.Conv(EndAt(s.a, h), Peer(s, n), OnTheWay(s, h), OnTheWay(Swap(s), -h))
  {
    hide EndAt, Sel;
  }

  lemma FlowsOf(c: C.Conv)
    requires C.Inv(c)
    ensures C.Flow(c.a, c.b, c.ab, c.ba) && C.Flow(c.b, c.a, c.ba, c.ab)
  {
    hide C.Flow;
  }

  /** The peer's end of message n. */
  function Peer(s: System, n: nat): C.End
    requires n in s.a.past
  {
    EndAt(s.b, -StampOf(s.a, n))
  }

  /** End-to-end FIFO, exactly once. While the receiver has an open record of the message, or none yet, the
      bytes accepted by `msg_write` are, in order, those returned by `msg_read`, those received and unread,
      those on their way and those still waiting at the sender. Whatever happens later, what was returned
      stays a prefix of what was accepted. */
  lemma EndToEndFifo(t: System, first: bool, n: nat)
    requires Reachable(t) && n in Side(t, first).a.past
    ensures var s := Side(t, first); var y := Peer(s, n);
      && y.delivered <= s.a.past[n].written
      && (y.stage.NotYet? || (y.stage.Live? && !y.stage.m.closed) ==>
          s.a.past[n].written ==
            y.delivered + C.Inbox(y) + C.Data(OnTheWay(s, StampOf(s.a, n))) + C.Pending(EndOf(s.a, n)))
  {
    ConversationHolds(t, first, n);
    hide Sel, C.Data, Flat, C.Inv, C.Window, C.Ending, C.Startup;
  }

  /** Stop-and-wait. A sender that has not disconnected waits for a response exactly while one
      packet of its message is on its way, or its acknowledgement is owed or on its way back; there
      is never more than one of these, and so never more than two packets unread at the receiver,
      whose queue the sender cannot see. */
  lemma OneTokenAndWindow(t: System, first: bool, n: nat)
    requires Reachable(t) && n in Side(t, first).a.sw.msgs
    ensures var s := Side(t, first); n in s.a.past
    ensures var s := Side(t, first); var m := s.a.sw.msgs[n]; var h := StampOf(s.a, n);
      && |m.readQ| <= N_BUFF_PACKETS
      && var tokens := C.NPack(OnTheWay(s, h)) + C.Need(Peer(s, n)) + C.NOk(OnTheWay(Swap(s), -h));
        && tokens <= 1
        && (!m.sentDiscon ==> m.waiting == (tokens == 1))
  {
    LiveIsPast(t, first, n);
    hide *;
    var s := Side(t, first);
    ConversationHolds(t, first, n);
    TokensOf(EndOf(s.a, n), Peer(s, n), OnTheWay(s, StampOf(s.a, n)), OnTheWay(Swap(s), -StampOf(s.a, n)));
    EndIsOk(t, first, n);
  }

  lemma LiveIsPast(t: System, first: bool, n: nat)
    requires Reachable(t) && n in Side(t, first).a.sw.msgs
    ensures var nd := Side(t, first).a; n in nd.past && EndOf(nd, n).stage == C.Live(nd.sw.msgs[n])
  {
    Always(t);
    assert Entry(Side(t, first).a, n);
    hide Reachable, Routed, C.Inv, View;
  }

  lemma TokensOf(x: C.End, y: C.End, xy: seq<C.Frame>, yx: seq<C.Frame>)
    requires C.Flow(x, y, xy, yx)
    ensures var tokens := C.NPack(xy) + C.Need(y) + C.NOk(yx);
      tokens <= 1 && (x.stage.Live? && !x.stage.m.sentDiscon ==> x.stage.m.waiting == (tokens == 1))
  {
    hide C.Ending, C.Startup, C.Fifo;
  }

  lemma EndIsOk(t: System, first: bool, n: nat)
    requires Reachable(t) && n in Side(t, first).a.past && n in Side(t, first).a.sw.msgs
    ensures MsgOk(Side(t, first).a.sw.msgs[n], StampOf(Side(t, first).a, n))
    ensures |Side(t, first).a.sw.msgs[n].readQ| <= N_BUFF_PACKETS
  {
    ConversationHolds(t, first, n);
    hide Reachable, QueueOk, C.Inv, Sel, C.Flow;
    LiveOk(View(Side(t, first), StampOf(Side(t, first).a, n)));
  }

  /** A sender with packets queued that is neither on the send list nor has anything of its message
      in transit faces a receiver whose window is full: no wake-up is ever lost. */
  lemma StalledMeansPeerFull(t: System, first: bool, n: nat)
    requires Reachable(t) && n in Side(t, first).a.sw.msgs && n in Side(t, first).a.past
    requires var s := Side(t, first); var m := s.a.sw.msgs[n]; var h := StampOf(s.a, n);
      && m.writQ != [] && !m.discon && n !in s.a.sw.pend
      && OnTheWay(s, h) == [] && OnTheWay(Swap(s), -h) == []
    ensures var y := Peer(Side(t, first), n); y.stage.Live? && |y.stage.m.readQ| == N_BUFF_PACKETS
  {
    var s := Side(t, first);
    var h := StampOf(s.a, n);
    Always(t);
    ConversationHolds(t, first, n);
    SendListExact(s, n);
    var c := View(s, h);
    LiveOk(c);
    assert c.a.stage.m.waiting;
    assert C.Need(c.b) == 1;
    C.SwapInv(c);
    LiveOk(C.Swap(c));
    hide Sel, Flat, C.Ending, C.Startup, C.Fifo, Inv, QueueOk;
  }

  /** Each end disconnects at most once; nothing but acknowledgements follows; an end that
      disconnected of its own accord had closed and had nothing left to send. */
  lemma OneDisconnect(t: System, first: bool, n: nat)
    requires Reachable(t) && n in Side(t, first).a.past
    ensures var s := Side(t, first); var x := EndOf(s.a, n); var q := OnTheWay(s, StampOf(s.a, n));
      && x.discons <= 1
      && C.NDiscon(q) + Bit(Peer(s, n).gotDiscon) == x.discons
      && C.Ordered(q) && (Peer(s, n).gotDiscon ==> C.NPack(q) == 0)
      && (x.stage.Live? && x.discons == 1 && !x.stage.m.discon ==> x.stage.m.closed && C.Pending(x) == [])
  {
    var s := Side(t, first);
    ConversationHolds(t, first, n);
    var c := View(s, StampOf(s.a, n));
    if c.a.stage.Live? { LiveOk(c); C.FlatNone(); }
    hide Sel, C.Startup, C.Fifo, C.Window, C.Ordered;
  }

  /** `msg_read` takes its end-of-file branch only when every byte its peer wrote was delivered. */
  lemma EofMeansComplete(t: System, first: bool, n: nat)
    requires Reachable(t) && n in Side(t, first).a.past
    requires Peer(Side(t, first), n).eof
    ensures Peer(Side(t, first), n).delivered == Side(t, first).a.past[n].written
  {
    ConversationHolds(t, first, n);
    hide Sel, Flat, C.Inv, C.Window, C.Ending, C.Startup;
  }

  /** An open message whose peer has disconnected holds all that was written and not yet read. */
  lemma DisconnectedHasAll(t: System, first: bool, n: nat)
    requires Reachable(t) && n in Side(t, first).a.sw.msgs
    requires var m := Side(t, first).a.sw.msgs[n]; m.discon && !m.closed
    ensures var s := Side(t, first); n in s.a.past && Peer(s, n).written == s.a.past[n].delivered + s.a.sw.msgs[n].Unread()
  {
    hide Reachable, Sel, C.Flow, C.Inv, Msg.Unread, MsgOk;
    LiveIsPast(t, first, n);
    ConversationHolds(t, first, n);
    var s := Side(t, first);
    PeerIsOk(t, first, n);
    AllArrived(Peer(s, n), EndOf(s.a, n), OnTheWay(Swap(s), -StampOf(s.a, n)), OnTheWay(s, StampOf(s.a, n)));
  }

  lemma PeerIsOk(t: System, first: bool, n: nat)
    requires Reachable(t) && n in Side(t, first).a.past
    ensures C.EndOk(Peer(Side(t, first), n)) && C.EndOk(EndOf(Side(t, first).a, n))
  {
    ConversationHolds(t, first, n);
    hide Reachable, C.Flow, C.EndOk, Sel;
    ViewParts(Side(t, first), StampOf(Side(t, first).a, n), n);
  }

  lemma {:induction false} NoData(q: seq<C.Frame>)
    requires C.NPack(q) == 0
    ensures C.Data(q) == []
  {
    if q != [] {
      C.HeadCounts(q);
      NoData(q[1..]);
    }
  }

  lemma AllArrived(x: C.End, y: C.End, xy: seq<C.Frame>, yx: seq<C.Frame>)
    requires C.Flow(x, y, xy, yx) && C.Flow(y, x, yx, xy) && C.EndOk(x) && C.EndOk(y)
    requires y.stage.Live? && y.stage.m.discon && !y.stage.m.closed
    ensures x.written == y.delivered + y.stage.m.Unread()
  {
    NoData(xy);
    C.FlatNone();
    hide Msg.Unread, C.Data, C.NPack, C.Ordered;
    assert C.Pending(x) == [];
    assert x.written == y.delivered + y.stage.m.Unread() + [] + [];
  }

  /** In every state the send list holds exactly the writing messages, each once; a live message
      with queued packets is waiting or writing; the switch asks to be called exactly when it has
      something to send; and the id table is the inverse of the messages' own record of it. */
  lemma EndpointConsistent(t: System, first: bool, n: nat)
    requires Reachable(t)
    ensures var sw := Side(t, first).a.sw;
      && multiset(sw.pend)[n] == Bit(n in sw.msgs && sw.msgs[n].writing)
      && (sw.armed <==> sw.pend != [] || sw.resps != [])
      && (forall i | i > 0 :: (i in sw.idmap && sw.idmap[i] == n) <==> (n in sw.msgs && sw.msgs[n].imsgid == i))
      && (n in sw.msgs ==> FlagsOk(sw.msgs[n]))
  {
    var s := Side(t, first);
    Always(t);
    SendListExact(s, n);
    if n in s.a.sw.msgs {
      assert Entry(s.a, n);
      ActiveStamp(s, n);
      LiveOk(View(s, StampOf(s.a, n)));
    }
    hide Sel, C.Inv, QueueOk, Routed;
  }

  // ---------- where the code does not keep these promises ----------

  /** A flush after a disconnect keeps the message in order exactly when nothing was left to flush;
      otherwise it queues a packet that no conversation expects. */
  lemma FlushAfterDisconnect(m: Msg, h: int)
    requires MsgOk(m, h) && m.discon && !m.closed
    ensures MsgOk(Flush(m).0.m, h) <==> FlushSafeHere(m)
  {
    if m.incomplete.Some? {
      assert Flush(m).0.m.writQ == m.writQ + [m.incomplete.value];
      assert Flush(m).0.m.sentDiscon;
    }
    hide Flat;
  }

  predicate FlushSafeHere(m: Msg) { m.incomplete.None? }

  /** Accepting a message that its peer has disconnected frees it, with what was not read. Bytes are lost
      exactly when there are any. */
  lemma AcceptDrops(t: System, first: bool, n: nat)
    requires Reachable(t) && n in Side(t, first).a.sw.msgs
    requires var m := Side(t, first).a.sw.msgs[n]; m.discon && !m.closed && !m.connected
    ensures var s := Side(t, first); var mv := User(n, C.Act.Accept);
      && n in s.a.past && Enabled(s, mv) && Safe(s, mv)
      && var s1 := Step(s, mv);
        && n !in s1.a.sw.msgs && n in s1.a.past && s1.b == s.b
        && (s1.a.past[n].delivered == Peer(s, n).written <==> s.a.sw.msgs[n].Unread() == [])
        && s1.a.past[n].delivered + s.a.sw.msgs[n].Unread() == Peer(s, n).written
  {
    hide Reachable, Sel, EndAt, Msg.Unread, Apply;
    DisconnectedHasAll(t, first, n);
    var s := Side(t, first);
    Freed(s, n);
    var d, u := s.a.past[n].delivered, s.a.sw.msgs[n].Unread();
    assert |d + u| == |d| + |u|;
    if u == [] { assert d + u == d; }
  }

  lemma Freed(s: System, n: nat)
    requires n in s.a.sw.msgs && n in s.a.past && s.a.sw.msgs[n].discon && !s.a.sw.msgs[n].closed && !s.a.sw.msgs[n].connected
    ensures var mv := User(n, C.Act.Accept); Enabled(s, mv) && Safe(s, mv) && var s1 := Step(s, mv);
      n !in s1.a.sw.msgs && n in s1.a.past && s1.b == s.b && s1.a.past[n].delivered == s.a.past[n].delivered
  {
    hide RemoveFirst, Repeat, Stamps;
  }

  /** Closing a message that holds two unread packets answers after the disconnect: the answer finds a peer
      that may have forgotten the message by then. */
  lemma AckAfterDisconnect(m: Msg, h: int)
    requires MsgOk(m, h) && !m.closed && !m.discon && m.writQ == [] && m.incomplete.None?
    ensures Close(m).0.emit == (if Unusable(m) then [] else [Discon]) + (if |m.readQ| == N_BUFF_PACKETS then [Ok] else [])
  {
    CloseFacts(m, h);
    hide CloseTail, FlushOpen, Flat;
  }

  predicate Unusable(m: Msg) { m.nWrit == 0 && m.nRead == 0 }

  /** All that can still be on its way to a message that is gone is one late acknowledgement. */
  lemma LeftOver(t: System, first: bool, n: nat)
    requires Reachable(t)
    requires var nd := Side(t, first).a; n in nd.past && n !in nd.sw.msgs
    ensures var s := Side(t, first); var q := OnTheWay(Swap(s), -StampOf(s.a, n)); q == [] || q == [C.Resp(Ok)]
  {
    hide Sel, C.Fifo, C.Window, C.Ending, C.Startup;
    var s := Side(t, first);
    ConversationHolds(t, first, n);
    LateStream(EndOf(s.a, n), Peer(s, n), OnTheWay(s, StampOf(s.a, n)), OnTheWay(Swap(s), -StampOf(s.a, n)));
  }

  lemma LateStream(x: C.End, y: C.End, xy: seq<C.Frame>, yx: seq<C.Frame>)
    requires C.Flow(x, y, xy, yx) && C.Flow(y, x, yx, xy) && x.stage.Gone? && y.discons <= 1
    ensures yx == [] || yx == [C.Resp(Ok)]
  {
    hide C.Fifo, C.Ordered;
    if x.gotDiscon { OneLeft(yx); }
  }

  lemma OneLeft(q: seq<C.Frame>)
    requires C.NPack(q) == 0 && C.NDiscon(q) == 0 && C.NOk(q) <= 1
    ensures q == [] || q == [C.Resp(Ok)]
  {
    Kinds(q);
    if q != [] {
      C.HeadCounts(q);
      assert q[0].Resp? && q[0].st.Ok?;
      assert q == [q[0]] + q[1..];
    }
  }

  lemma {:induction false} Kinds(q: seq<C.Frame>)
    ensures |q| == C.NPack(q) + C.NOk(q) + C.NDiscon(q)
  {
    if q != [] {
      C.HeadCounts(q);
      Kinds(q[1..]);
      if q[0].Resp? { assert q[0].st.Ok? || q[0].st.Discon?; }
    }
  }

  lemma RespsOnly(s: System)
    requires Inv(s)
    ensures forall f | f in s.a.sw.resps :: f.Resp?
  {
    hide C.Inv, View;
  }

  /** A frame on its way to the new message n says that a packet was received which n never sent. */
  predicate Unexpected(s: System, n: nat, f: Frame) {
    && f in s.ba + s.b.sw.resps && f.Resp? && Lookup(s.a.sw, f.msgid) == Some(n)
    && !RespExpected(s.a.sw.msgs[n], f.st)
  }

  /** The two ways in which a switch gives out the id n: for a message that is opened, and for one whose first
      packet arrives. */
  predicate GivesOut(s: System, mv: Move, n: nat) {
    (mv.Open? && mv.id == n) || (mv == Recv(n) && Creates(s))
  }

  /** Giving out an id, in either way, meets an unexpected acknowledgement exactly when this switch gave it out
      for a message it opened before, and the late acknowledgement of that message is still on its way. */
  lemma ReuseUnexpected(t: System, first: bool, mv: Move, n: nat)
    requires Reachable(t) && Possible(Side(t, first), mv) && Safe(Side(t, first), mv) && GivesOut(Side(t, first), mv, n)
    ensures var s := Side(t, first);
      (exists f :: Unexpected(Step(s, mv), n, f)) <==>
        n in s.a.past && s.a.past[n].origin == 0 && OnTheWay(Swap(s), n) != []
  {
    hide Reachable, Inv, Lookup, Sel, Step, Safe, Creates;
    var s := Side(t, first);
    var s1 := Step(s, mv);
    Always(t);
    if mv.Open? { Opened(s, n, mv.typ); } else { Created(s, n); }
    if n in s.a.past && s.a.past[n].origin == 0 && OnTheWay(Swap(s), n) != [] {
      NotThere(s, mv, n);
      LeftOver(t, first, n);
      var f := Picked(s.ba + s.b.sw.resps, n);
      if mv.Recv? { StillThere(s, n, f); }
      assert Unexpected(s1, n, f);
    }
    if f :| Unexpected(s1, n, f) {
      if mv.Recv? { NoAckAlong(s, n, f); }
      Selected(s.ba + s.b.sw.resps, n, f);
    }
  }

  lemma NotThere(s: System, mv: Move, n: nat)
    requires Possible(s, mv) && GivesOut(s, mv, n)
    ensures n !in s.a.sw.msgs
  {
  }

  lemma StillThere(s: System, n: nat, f: Frame)
    requires Creates(s) && f in s.ba + s.b.sw.resps && f.Resp?
    ensures f in s.ba[1..] + s.b.sw.resps
  {
    assert s.ba == [s.ba[0]] + s.ba[1..];
  }

  lemma Beyond(q: set<nat>) returns (n: nat)
    ensures n > 0 && n !in q && forall k | k in q :: k < n
  {
    if q == {} {
      n := 1;
    } else {
      var x :| x in q;
      var m := Beyond(q - {x});
      n := if x >= m then x + 1 else m;
      forall k | k in q ensures k < n {
        if k != x { assert k in q - {x}; }
      }
    }
  }

  /** The end that a creating packet opens has no history here, and nothing but that packet's own kind is on
      its way to it. */
  lemma Unheard(s: System)
    requires Inv(s) && Creates(s) && s.ba[0].p.msgid < 0
    ensures var h := -s.ba[0].p.msgid; var c := View(s, h); C.Inv(c) && c.a.stage.NotYet?
  {
    hide Inv, EndAt, Sel, C.Inv, Known;
    var p := s.ba[0].p;
    var id := Beyond(s.a.past.Keys + s.a.sw.msgs.Keys);
    RecvNewEnd(s, id, p);
    HeadActive(s);
  }

  lemma NoAckAlong(s: System, n: nat, f: Frame)
    requires Inv(s) && Possible(s, Recv(n)) && Safe(s, Recv(n)) && Creates(s)
    requires Unexpected(Step(s, Recv(n)), n, f)
    ensures f in s.ba + s.b.sw.resps && Key(f) == n
  {
    hide Inv, Sel, Step, EndAt, C.Inv, Lookup;
    Created(s, n);
    CreateSafe(s, n);
    assert s.ba == [s.ba[0]] + s.ba[1..];
    if Key(f) != n {
      Unheard(s);
      var h := s.ba[0].p.msgid;
      NoToken(View(s, -h));
      Acked(s.ba + s.b.sw.resps, h, f);
      assert false;
    }
  }

  lemma CreateSafe(s: System, n: nat)
    requires Possible(s, Recv(n)) && Safe(s, Recv(n)) && Creates(s)
    ensures s.ba[0].p.msgid < 0
  {
  }

  lemma NoToken(c: C.Conv)
    requires C.Inv(c) && c.a.stage.NotYet?
    ensures C.NOk(c.ba) == 0
  {
    hide C.Ending, C.Startup, C.Fifo, C.EndOk;
  }

  lemma {:induction false} Acked(fs: seq<Frame>, h: int, f: Frame)
    requires f in fs && f == Resp(h, Ok)
    ensures C.NOk(Sel(fs, h)) > 0
  {
    var r := Sel(fs[1..], h);
    if Key(fs[0]) == h {
      assert Sel(fs, h) == [Bare(fs[0])] + r;
      C.HeadCounts(Sel(fs, h));
      assert Sel(fs, h)[1..] == r;
    } else {
      assert Sel(fs, h) == [] + r && [] + r == r;
    }
    if fs[0] != f { Acked(fs[1..], h, f); }
  }

  /** Only frames that carry n, or the id of the packet that created it, mean the new message. */
  lemma Created(s: System, n: nat)
    requires Inv(s) && Possible(s, Recv(n)) && Safe(s, Recv(n)) && Creates(s)
    ensures var s1 := Step(s, Recv(n)); var p := s.ba[0].p;
      && s1.ba == s.ba[1..] && s1.b == s.b && n in s1.a.sw.msgs
      && !s1.a.sw.msgs[n].waiting && !s1.a.sw.msgs[n].sentDiscon
      && (forall id :: Lookup(s1.a.sw, id) == Some(n) <==> id == n || id == p.msgid)
      && (forall f | f in s.ba + s.b.sw.resps && Key(f) == n :: n in s.a.past && s.a.past[n].origin == 0)
  {
    hide C.Inv, View;
  }

  /** Only frames that carry n itself mean the new message. */
  lemma Opened(s: System, n: nat, typ: int)
    requires Inv(s) && Possible(s, Open(n, typ))
    ensures var s1 := Step(s, Open(n, typ));
      && s1.ba == s.ba && s1.b == s.b && n in s1.a.sw.msgs && s1.a.sw.msgs[n] == MsgCore.Fresh(n, 0, typ).(connected := true)
      && (forall id :: Lookup(s1.a.sw, id) == Some(n) <==> id == n)
      && (forall f | f in s.ba + s.b.sw.resps && Key(f) == n :: n in s.a.past && s.a.past[n].origin == 0)
  {
    hide C.Inv, View;
  }

  lemma {:induction false} Picked(fs: seq<Frame>, h: int) returns (f: Frame)
    requires Sel(fs, h) == [C.Resp(Ok)]
    ensures f in fs && f == Resp(h, Ok)
  {
    if Key(fs[0]) == h {
      f := fs[0];
      assert Bare(f) == Sel(fs, h)[0];
    } else {
      f := Picked(fs[1..], h);
    }
  }

  lemma {:induction false} Selected(fs: seq<Frame>, h: int, f: Frame)
    requires f in fs && Key(f) == h
    ensures Sel(fs, h) != []
  {
    if fs[0] != f { Selected(fs[1..], h, f); }
  }

  /** Once both ends are gone and nothing is on its way, the conversation can be forgotten: the run goes on
      as if the id had never been used, with every promise above. */
  lemma ReuseAfterRetire(t: System, first: bool, n: nat, typ: int)
    requires Reachable(t) && Over(Side(t, first), n)
    ensures Reachable(Side(Step(Side(t, first), Retire(n)), first))
    ensures var s := Step(Side(t, first), Retire(n)); n > 0 && Enabled(s, Open(n, typ)) && s.a.sw == Side(t, first).a.sw
  {
    hide C.Inv, View, Forgotten, Over, Tables, StampOf;
    var run :| Reaches(START, run, t);
    Always(t);
    Extend(START, run, t, Event(first, Retire(n)));
    RetiredFresh(Side(t, first), n);
  }

  lemma RetiredFresh(s: System, n: nat)
    requires Tables(s.a) && Over(s, n)
    ensures var nd := Forgotten(s.a, StampOf(s.a, n)); n > 0 && n !in nd.past && n !in nd.sw.msgs && nd.sw == s.a.sw
  {
    hide Sel;
  }
}
