/** Two switches joined by two FIFO byte streams, here streams of whole frames. Every conversation
    is found again in the tables of both switches by the header id its frames carry. */
module TwoSwitches {
  import opened MsgCore
  import opened MsgFacts
  import C = Conversation

  // ---------- one switch ----------

  datatype Frame = Pack(p: Packet) | Resp(msgid: int, st: Status)

  /** `idmap` is `imsgid_map` without its zero entries; `armed` tells that the switch asked to be
      called when the connection is writable. */
  datatype Switch = Switch(msgs: map<nat, Msg>, idmap: map<nat, nat>, resps: seq<Frame>, pend: seq<nat>, armed: bool)
  {
    predicate HasWrites() { pend != [] || resps != [] }
  }

  /** The message an id in a received frame means: a positive id is ours, a negative one the peer's. */
  function Lookup(sw: Switch, msgid: int): Option<nat> {
    if msgid > 0 && msgid in sw.msgs then Some(msgid)
    else if msgid < 0 && -msgid in sw.idmap && sw.idmap[-msgid] in sw.msgs then Some(sw.idmap[-msgid])
    else None
  }

  function RemoveFirst(q: seq<nat>, n: nat): seq<nat> {
    if q == [] then [] else if q[0] == n then q[1..] else [q[0]] + RemoveFirst(q[1..], n)
  }

  function Repeat(n: nat, k: nat): seq<nat> { if k == 0 then [] else [n] + Repeat(n, k - 1) }

  function Stamps(h: int, e: seq<Status>): (r: seq<Frame>)
    ensures |r| == |e|
  {
    if e == [] then [] else [Resp(h, e[0])] + Stamps(h, e[1..])
  }

  /** The effect on the whole switch of work done on message n. */
  function Apply(sw: Switch, n: nat, w: Work): Switch
    requires n in sw.msgs
  {
    var m := sw.msgs[n];
    var pend := (if w.drop then RemoveFirst(sw.pend, n) else sw.pend) + Repeat(n, w.push);
    var resps := sw.resps + Stamps(m.Stamp(), w.emit);
    Switch(
      if w.freed then map k | k in sw.msgs && k != n :: sw.msgs[k] else sw.msgs[n := w.m],
      if w.freed || w.m.imsgid == 0 then map k | k in sw.idmap && k != m.imsgid :: sw.idmap[k] else sw.idmap,
      resps, pend,
      if w.emit != [] || w.push > 0 then true
      else if w.drop then sw.armed && (pend != [] || resps != []) else sw.armed)
  }

  // ---------- one switch and its past ----------

  /** What happened so far on one local id. `origin` is the peer's id of a message accepted from
      there, and 0 for a message opened here. */
  datatype Past = Past(origin: nat, written: Bytes, delivered: Bytes, discons: nat, gotDiscon: bool, eof: bool)

  /** `acc` gives the local id of the message accepted from a peer's id. */
  datatype Node = Node(sw: Switch, past: map<nat, Past>, acc: map<nat, nat>)

  const EMPTY_SWITCH := Switch(map[], map[], [], [], false)
  const EMPTY_NODE := Node(EMPTY_SWITCH, map[], map[])
  const NEW_PAST := Past(0, [], [], 0, false, false)

  datatype System = System(a: Node, b: Node, ab: seq<Frame>, ba: seq<Frame>)

  function Swap(s: System): System { System(s.b, s.a, s.ba, s.ab) }

  const START := System(EMPTY_NODE, EMPTY_NODE, [], [])

  /** `Retire` is no step of the code: it forgets the history of a conversation that is over. */
  datatype Move = Open(id: nat, typ: int) | User(n: nat, act: C.Act) | Send | Recv(newId: nat) | Retire(n: nat)

  // ---------- steps of the first switch; `Swap` gives those of the second ----------

  predicate UserAct(act: C.Act) { !act.Send? && !act.Recv? }

  predicate Fresh(nd: Node, id: nat) { id > 0 && id !in nd.past }

  /** The next frame is the first of a message this switch does not know. */
  predicate Creates(s: System) {
    s.ba != [] && s.ba[0].Pack? && Lookup(s.a.sw, s.ba[0].p.msgid) == None
  }

  /** The conversation of message n is over: neither end has its record any more, and nothing of it is on
      its way. */
  predicate Over(s: System, n: nat) {
    && n in s.a.past && n !in s.a.sw.msgs
    && var h := StampOf(s.a, n);
      && (Known(s.b, -h) ==> IdOf(s.b, -h) !in s.b.sw.msgs)
      && Sel(s.ab + s.a.sw.resps, h) == [] && Sel(s.ba + s.b.sw.resps, -h) == []
  }

  /** What the user, the connection or the peer must offer for the step to happen; a new message takes an
      id that is free. */
  predicate Possible(s: System, mv: Move) {
    match mv
    case Open(id, _) => id > 0 && id !in s.a.sw.msgs
    case User(n, act) => UserAct(act) && n in s.a.sw.msgs
    case Send => s.a.sw.armed
    case Recv(newId) => s.ba != [] && newId > 0 && (Creates(s) ==> newId !in s.a.sw.msgs)
    case Retire(n) => Over(s, n)
  }

  /** The steps that keep the promises: an id is used again only after its conversation was retired, nothing
      half filled is flushed after a disconnect, and no disconnect is met while sending. */
  predicate Guarded(s: System, mv: Move) {
    match mv
    case Open(id, _) => Fresh(s.a, id)
    case User(n, act) => act.Flush? && n in s.a.sw.msgs ==> C.FlushSafe(s.a.sw.msgs[n])
    case Send => true
    case Recv(newId) =>
      && (Creates(s) ==> Fresh(s.a, newId))
      && (s.ba != [] && s.ba[0].Resp? && s.ba[0].st.Discon? ==>
          match Lookup(s.a.sw, s.ba[0].msgid)
          case None => true
          case Some(n) => DrainSafe(s.a.sw.msgs[n]))
    case Retire(_) => true
  }

  predicate Enabled(s: System, mv: Move) { Possible(s, mv) && Guarded(s, mv) }

  /** The assertions of the code on the step, and that what it takes from a queue is there. */
  predicate Safe(s: System, mv: Move)
    requires Possible(s, mv)
  {
    match mv
    case Open(_, _) => true
    case Retire(_) => true
    case User(n, act) => n in s.a.past && C.Safe(Alone(s.a, n), act)
    case Send =>
      s.a.sw.resps == [] ==>
        s.a.sw.pend != [] && var n := s.a.sw.pend[0]; n in s.a.sw.msgs && n in s.a.past && s.a.sw.msgs[n].writQ != []
    case Recv(newId) =>
      match s.ba[0]
      case Pack(p) =>
        (match Lookup(s.a.sw, p.msgid)
         case None => p.msgid < 0
         case Some(n) => n in s.a.past && !s.a.sw.msgs[n].discon)
      case Resp(id, st) =>
        (match Lookup(s.a.sw, id)
         case None => true
         case Some(n) =>
           var m := s.a.sw.msgs[n];
           n in s.a.past && RespExpected(m, st) && (m.availWrit ==> m.writQ != []) && (m.discon ==> st.Ok?))
  }

  /** A local end without its peer, to reuse the steps of a conversation. */
  function Alone(nd: Node, n: nat): C.Conv
    requires n in nd.past
  {
    C.Conv(EndOf(nd, n), C.NotYetEnd(1), [], [])
  }

  /** The records of an end after a step of its conversation. */
  function Update(nd: Node, n: nat, w: Work, x: C.End): Node
    requires n in nd.sw.msgs && n in nd.past
  {
    nd.(sw := Apply(nd.sw, n, w),
        past := nd.past[n := Past(nd.past[n].origin, x.written, x.delivered, x.discons, x.gotDiscon, x.eof)])
  }

  /** The end y with the history of x. */
  function Relog(y: C.End, x: C.End): C.End {
    y.(written := x.written, delivered := x.delivered, discons := x.discons, gotDiscon := x.gotDiscon, eof := x.eof)
  }

  /** Work that neither reads nor writes for a user; `told` when it answers the peer's disconnect. */
  function React(nd: Node, n: nat, w: Work, told: bool): Node
    requires n in nd.sw.msgs && n in nd.past
  {
    var x := C.Absorb(EndOf(nd, n), w);
    Update(nd, n, w, x.(gotDiscon := x.gotDiscon || told))
  }

  function UserWork(m: Msg, act: C.Act): Work
    requires UserAct(act)
    requires act.Write? && m.incomplete.Some? ==> |m.incomplete.value.data| <= PACK_DATA_SIZE
    requires act.Read? && !m.closed && m.availRead ==> Reading(m)
    requires act.Close? && !m.closed && m.availRead ==> m.readQ != []
  {
    match act
    case Write(data) => MsgCore.Write(m, data).0
    case Flush => MsgCore.Flush(m).0
    case Read(size) => MsgCore.Read(m, size).0
    case Accept => MsgCore.Accept(m)
    case Close => MsgCore.Close(m).0
  }

  function Step(s: System, mv: Move): System
    requires Possible(s, mv) && Safe(s, mv)
  {
    match mv
    case Retire(n) => var h := StampOf(s.a, n); s.(a := Forgotten(s.a, h), b := Forgotten(s.b, -h))
    case Open(id, typ) =>
      s.(a := s.a.(sw := s.a.sw.(msgs := s.a.sw.msgs[id := MsgCore.Fresh(id, 0, typ).(connected := true)]),
                   past := s.a.past[id := NEW_PAST]))
    case User(n, act) =>
      s.(a := Update(s.a, n, UserWork(s.a.sw.msgs[n], act), C.Step(Alone(s.a, n), act).a))
    case Send => SendFrame(s)
    case Recv(newId) => Receive(s.(ba := s.ba[1..]), s.ba[0], newId)
  }

  /** `msg_switch_write`: responses first, then the next packet of the message first on the send list. */
  function SendFrame(s: System): System
    requires s.a.sw.resps == [] ==>
      s.a.sw.pend != [] && var n := s.a.sw.pend[0]; n in s.a.sw.msgs && n in s.a.past && s.a.sw.msgs[n].writQ != []
  {
    var sw := s.a.sw;
    if sw.resps != [] then
      var sw1 := sw.(resps := sw.resps[1..]);
      s.(a := s.a.(sw := Disarm(sw1)), ab := s.ab + [sw.resps[0]])
    else
      var n := sw.pend[0];
      s.(a := Unlist(React(s.a, n, PopWrit(Start(sw.msgs[n])), false)), ab := s.ab + [Pack(sw.msgs[n].writQ[0])])
  }

  /** The first message leaves the send list. */
  function Unlist(nd: Node): Node {
    nd.(sw := Disarm(nd.sw.(pend := if nd.sw.pend == [] then [] else nd.sw.pend[1..])))
  }

  function Disarm(sw: Switch): Switch { sw.(armed := sw.armed && sw.HasWrites()) }

  /** The past without the conversation whose frames are stamped h. */
  function Forgotten(nd: Node, h: int): Node {
    if !Known(nd, h) then nd
    else nd.(past := map n | n in nd.past && n != IdOf(nd, h) :: nd.past[n], acc := map k | k in nd.acc && k != h :: nd.acc[k])
  }

  function Receive(s: System, f: Frame, newId: nat): System
    requires newId > 0
    requires f.Pack? ==> match Lookup(s.a.sw, f.p.msgid)
      case None => f.p.msgid < 0
      case Some(n) => n in s.a.past
    requires f.Resp? ==> match Lookup(s.a.sw, f.msgid)
      case None => true
      case Some(n) => var m := s.a.sw.msgs[n]; n in s.a.past && RespExpected(m, f.st) && (m.availWrit ==> m.writQ != [])
  {
    match f
    case Pack(p) =>
      (match Lookup(s.a.sw, p.msgid)
       case Some(n) => s.(a := React(s.a, n, RecvPack(s.a.sw.msgs[n], p), false))
       case None =>
         var nd := Create(s.a, newId, -p.msgid, p.typ);
         s.(a := React(nd, newId, RecvPack(nd.sw.msgs[newId], p), false)))
    case Resp(id, st) =>
      (match Lookup(s.a.sw, id)
       case None => s
       case Some(n) => s.(a := React(s.a, n, RecvResp(s.a.sw.msgs[n], st), st.Discon?)))
  }

  function Create(nd: Node, newId: nat, origin: nat, typ: int): Node {
    Node(nd.sw.(msgs := nd.sw.msgs[newId := MsgCore.Fresh(newId, origin, typ)], idmap := nd.sw.idmap[origin := newId]),
         nd.past[newId := NEW_PAST.(origin := origin)], nd.acc[origin := newId])
  }

  // ---------- conversations seen in the system ----------

  function Key(f: Frame): int { if f.Pack? then f.p.msgid else f.msgid }

  /** The frames that carry the header id h. */
  function Sel(fs: seq<Frame>, h: int): seq<C.Frame> {
    if fs == [] then []
    else (if Key(fs[0]) == h then [Bare(fs[0])] else []) + Sel(fs[1..], h)
  }

  function Bare(f: Frame): C.Frame { if f.Pack? then C.Pack(f.p) else C.Resp(f.st) }

  function StampOf(nd: Node, n: nat): int
    requires n in nd.past
  {
    if nd.past[n].origin == 0 then -(n as int) else nd.past[n].origin
  }

  function Entries(q: seq<nat>, n: nat): nat { multiset(q)[n] }

  function EndOf(nd: Node, n: nat): C.End
    requires n in nd.past
  {
    var p := nd.past[n];
    C.End(if n in nd.sw.msgs then C.Live(nd.sw.msgs[n]) else C.Gone, StampOf(nd, n), Entries(nd.sw.pend, n),
          p.written, p.delivered, p.discons, p.gotDiscon, p.eof)
  }

  predicate Known(nd: Node, h: int) {
    if h < 0 then -h in nd.past && nd.past[-h].origin == 0 else h in nd.acc && nd.acc[h] in nd.past
  }

  /** The local id of the message whose frames this switch stamps h. */
  function IdOf(nd: Node, h: int): nat
    requires Known(nd, h)
  {
    if h < 0 then -h else nd.acc[h]
  }

  function EndAt(nd: Node, h: int): C.End {
    if Known(nd, h) then EndOf(nd, IdOf(nd, h)) else C.NotYetEnd(h)
  }

  /** The conversation whose frames the first switch stamps h and the second -h. */
  function View(s: System, h: int): C.Conv {
    C.Conv(EndAt(s.a, h), EndAt(s.b, -h), Sel(s.ab + s.a.sw.resps, h), Sel(s.ba + s.b.sw.resps, -h))
  }

  /** The opener of the conversation has used its id. */
  predicate Active(s: System, h: int) {
    h != 0 && if h < 0 then Known(s.a, h) else Known(s.b, -h)
  }

  predicate Tables(nd: Node) {
    && (forall n | n in nd.sw.msgs :: Entry(nd, n))
    && (forall n | n in nd.past :: n > 0 && (nd.past[n].origin != 0 ==> nd.past[n].origin in nd.acc && nd.acc[nd.past[n].origin] == n))
    && (forall k | k in nd.acc :: k > 0 && nd.acc[k] in nd.past && nd.past[nd.acc[k]].origin == k)
    && (forall k | k in nd.sw.idmap :: k > 0 && nd.sw.idmap[k] in nd.sw.msgs && nd.sw.msgs[nd.sw.idmap[k]].imsgid == k)
    && (forall n | n in nd.sw.pend :: n in nd.past)
    && (nd.sw.armed <==> nd.sw.HasWrites())
    && (forall f | f in nd.sw.resps :: f.Resp?)
  }

  predicate Entry(nd: Node, n: nat) {
    && n in nd.sw.msgs && n in nd.past
    && nd.sw.msgs[n].msgid == n
    && nd.sw.msgs[n].imsgid == (if nd.sw.msgs[n].discon then 0 else nd.past[n].origin)
    && (nd.sw.msgs[n].imsgid != 0 ==> nd.sw.msgs[n].imsgid in nd.sw.idmap && nd.sw.idmap[nd.sw.msgs[n].imsgid] == n)
  }

  /** Every frame this switch has sent or is about to send belongs to a conversation it knows, and
      it knows no conversation the peer did not open. */
  predicate Routed(nd: Node, out: seq<Frame>, peer: Node) {
    && (forall f | f in out + nd.sw.resps :: Key(f) != 0 && Known(nd, Key(f)))
    && (forall k | k in nd.acc :: Known(peer, -k))
  }

  ghost predicate Inv(s: System) {
    && Tables(s.a) && Tables(s.b)
    && Routed(s.a, s.ab, s.b) && Routed(s.b, s.ba, s.a)
    && (forall h | Active(s, h) :: C.Inv(View(s, h)))
  }

  lemma SwapView(s: System, h: int)
    ensures View(Swap(s), -h) == C.Swap(View(s, h))
  {
  }

  lemma SwapInv(s: System)
    requires Inv(s)
    ensures Inv(Swap(s))
  {
    forall h | Active(Swap(s), h)
      ensures C.Inv(View(Swap(s), h))
    {
      SwapView(s, -h);
      assert Active(s, -h);
      C.SwapInv(View(s, -h));
    }
  }

  lemma StartInv()
    ensures Inv(START)
  {
  }

  // ---------- selecting one conversation ----------

  lemma {:induction false} SelAppend(fs: seq<Frame>, gs: seq<Frame>, h: int)
    ensures Sel(fs + gs, h) == Sel(fs, h) + Sel(gs, h)
  {
    hide Key, Bare;
    if fs == [] {
      assert fs + gs == gs;
    } else {
      SelAppend(fs[1..], gs, h);
      assert (fs + gs)[0] == fs[0] && (fs + gs)[1..] == fs[1..] + gs;
    }
  }

  lemma {:induction false} SelNone(fs: seq<Frame>, h: int)
    requires forall f | f in fs :: Key(f) != h
    ensures Sel(fs, h) == []
  {
    if fs != [] { SelNone(fs[1..], h); }
  }

  lemma SelHead(fs: seq<Frame>, gs: seq<Frame>, h: int)
    requires fs != []
    ensures Sel(fs + gs, h) == (if Key(fs[0]) == h then [Bare(fs[0])] else []) + Sel(fs[1..] + gs, h)
  {
    assert (fs + gs)[0] == fs[0] && (fs + gs)[1..] == fs[1..] + gs;
  }

  lemma {:induction false} SelStamps(h0: int, e: seq<Status>, h: int)
    ensures Sel(Stamps(h0, e), h) == if h == h0 then C.Resps(e) else []
    ensures forall f | f in Stamps(h0, e) :: Key(f) == h0 && f.Resp?
  {
    if e != [] {
      SelStamps(h0, e[1..], h);
      assert Stamps(h0, e)[1..] == Stamps(h0, e[1..]);
    }
  }

  lemma {:induction false} RepeatEntries(n: nat, k: nat, m: nat)
    ensures Entries(Repeat(n, k), m) == if m == n then k else 0
  {
    if k > 0 { RepeatEntries(n, k - 1, m); }
  }

  lemma {:induction false} RemoveEntries(q: seq<nat>, n: nat, m: nat)
    ensures Entries(RemoveFirst(q, n), m) == if m == n && Entries(q, n) > 0 then Entries(q, n) - 1 else Entries(q, m)
  {
    if q != [] {
      assert q == [q[0]] + q[1..];
      if q[0] != n { RemoveEntries(q[1..], n, m); }
    }
  }

  // ---------- work on one message, seen from every conversation ----------

  lemma ApplyPend(sw: Switch, n: nat, w: Work, m: nat)
    requires n in sw.msgs
    ensures Entries(Apply(sw, n, w).pend, m) ==
      if m == n then (if w.drop && Entries(sw.pend, n) > 0 then Entries(sw.pend, n) - 1 else Entries(sw.pend, n)) + w.push
      else Entries(sw.pend, m)
  {
    RemoveEntries(sw.pend, n, m);
    RepeatEntries(n, w.push, m);
  }

  lemma PendSubset(sw: Switch, n: nat, w: Work)
    requires n in sw.msgs
    ensures forall m | m in Apply(sw, n, w).pend :: m in sw.pend || m == n
  {
    forall m | m in Apply(sw, n, w).pend
      ensures m in sw.pend || m == n
    {
      ApplyPend(sw, n, w, m);
      assert Entries(Apply(sw, n, w).pend, m) > 0;
    }
  }

  /** What `Update` leaves to prove about a piece of work before the tables can be trusted again. */
  predicate Ready(nd: Node, n: nat, w: Work) {
    n in nd.sw.msgs && n in nd.past && Conforms(nd.sw.msgs[n], w)
  }

  lemma UpdateEntry(nd: Node, n: nat, w: Work, x: C.End, k: nat)
    requires Tables(nd) && Ready(nd, n, w) && k in Update(nd, n, w, x).sw.msgs
    ensures Entry(Update(nd, n, w, x), k)
  {
    assert Entry(nd, n) && Entry(nd, k);
    hide Tables, RemoveFirst, Repeat, Stamps;
  }

  lemma UpdateIdmap(nd: Node, n: nat, w: Work, x: C.End, k: nat)
    requires Tables(nd) && Ready(nd, n, w) && k in Update(nd, n, w, x).sw.idmap
    ensures var sw := Update(nd, n, w, x).sw; k > 0 && sw.idmap[k] in sw.msgs && sw.msgs[sw.idmap[k]].imsgid == k
  {
    assert k in nd.sw.idmap && nd.sw.idmap[k] in nd.sw.msgs;
    assert Entry(nd, n) && Entry(nd, nd.sw.idmap[k]);
    hide Tables, RemoveFirst, Repeat, Stamps;
  }

  lemma {:induction false} RemoveNone(q: seq<nat>, n: nat)
    requires q == []
    ensures RemoveFirst(q, n) == []
  {
  }

  lemma UpdateLists(nd: Node, n: nat, w: Work, x: C.End)
    requires Tables(nd) && Ready(nd, n, w)
    ensures var sw := Update(nd, n, w, x).sw;
      && (forall m | m in sw.pend :: m in nd.past)
      && (sw.armed <==> sw.HasWrites())
      && (forall f | f in sw.resps :: f.Resp?)
  {
    PendSubset(nd.sw, n, w);
    SelStamps(nd.sw.msgs[n].Stamp(), w.emit, 0);
    if nd.sw.pend == [] { RemoveNone(nd.sw.pend, n); }
    hide RemoveFirst, Stamps, Entry;
  }

  lemma UpdateTables(nd: Node, n: nat, w: Work, x: C.End)
    requires Tables(nd) && Ready(nd, n, w)
    ensures Tables(Update(nd, n, w, x))
  {
    UpdateLists(nd, n, w, x);
    forall k | k in Update(nd, n, w, x).sw.msgs { UpdateEntry(nd, n, w, x, k); }
    forall k | k in Update(nd, n, w, x).sw.idmap { UpdateIdmap(nd, n, w, x, k); }
    hide Apply, Entry;
  }

  lemma ApplyMsgs(sw: Switch, n: nat, w: Work, m: nat)
    requires n in sw.msgs
    ensures m in Apply(sw, n, w).msgs <==> if m == n then !w.freed else m in sw.msgs
    ensures m in Apply(sw, n, w).msgs ==> Apply(sw, n, w).msgs[m] == if m == n then w.m else sw.msgs[m]
  {
    hide RemoveFirst, Repeat, Stamps;
  }

  lemma StampNames(nd: Node, n: nat, h: int)
    requires Tables(nd) && n in nd.past
    ensures Known(nd, StampOf(nd, n)) && IdOf(nd, StampOf(nd, n)) == n
    ensures Known(nd, h) && h != StampOf(nd, n) ==> IdOf(nd, h) != n
  {
    hide Entry;
  }

  lemma UpdateEnds(nd: Node, n: nat, w: Work, x: C.End, h: int)
    requires Tables(nd) && Ready(nd, n, w)
    ensures Known(Update(nd, n, w, x), h) == Known(nd, h)
    ensures h != StampOf(nd, n) ==> EndAt(Update(nd, n, w, x), h) == EndAt(nd, h)
  {
    StampNames(nd, n, h);
    hide RemoveFirst, Repeat, Stamps, Entry, Tables, Apply;
    var nd1 := Update(nd, n, w, x);
    if Known(nd, h) && h != StampOf(nd, n) {
      var m := IdOf(nd, h);
      ApplyPend(nd.sw, n, w, m);
      ApplyMsgs(nd.sw, n, w, m);
      assert EndOf(nd1, m) == EndOf(nd, m);
    }
  }

  lemma UpdateEnd(nd: Node, n: nat, w: Work, x: C.End)
    requires Tables(nd) && Ready(nd, n, w)
    ensures Known(nd, StampOf(nd, n)) && IdOf(nd, StampOf(nd, n)) == n
    ensures EndAt(Update(nd, n, w, x), StampOf(nd, n)) ==
           Relog(C.Absorb(EndOf(nd, n), w), x)
  {
    StampNames(nd, n, 0);
    ApplyPend(nd.sw, n, w, n);
    ApplyMsgs(nd.sw, n, w, n);
    UpdateEnds(nd, n, w, x, StampOf(nd, n));
    hide RemoveFirst, Repeat, Stamps, Entry, Tables, Apply;
  }

  lemma UpdateSent(nd: Node, n: nat, w: Work, x: C.End, wire: seq<Frame>, h: int)
    requires Tables(nd) && Ready(nd, n, w)
    ensures var nd1 := Update(nd, n, w, x);
      Sel(wire + nd1.sw.resps, h) == Sel(wire + nd.sw.resps, h) + (if h == StampOf(nd, n) then C.Resps(w.emit) else [])
    ensures forall f | f in Update(nd, n, w, x).sw.resps :: f in nd.sw.resps || Key(f) == StampOf(nd, n)
  {
    assert Entry(nd, n);
    var st := Stamps(nd.sw.msgs[n].Stamp(), w.emit);
    assert wire + (nd.sw.resps + st) == (wire + nd.sw.resps) + st;
    SelAppend(wire + nd.sw.resps, st, h);
    SelStamps(nd.sw.msgs[n].Stamp(), w.emit, h);
  }

  lemma ActiveStamp(s: System, n: nat)
    requires Inv(s) && n in s.a.past
    ensures var h := StampOf(s.a, n);
      Active(s, h) && C.Inv(View(s, h)) && Known(s.a, h) && EndAt(s.a, h) == EndOf(s.a, n)
  {
    StampNames(s.a, n, 0);
  }

  lemma UpdateRouted(s: System, n: nat, w: Work, x: C.End, wire: seq<Frame>)
    requires Tables(s.a) && Ready(s.a, n, w) && Routed(s.a, s.ab, s.b) && Routed(s.b, s.ba, s.a)
    requires forall f | f in wire :: f in s.ab || Key(f) == StampOf(s.a, n)
    ensures var nd := Update(s.a, n, w, x); Routed(nd, wire, s.b) && Routed(s.b, s.ba, nd)
  {
    hide Apply;
    var nd := Update(s.a, n, w, x);
    StampNames(s.a, n, 0);
    UpdateSent(s.a, n, w, x, wire, 0);
    forall f | f in wire + nd.sw.resps
      ensures Key(f) != 0 && Known(nd, Key(f))
    {
      assert f in s.ab + s.a.sw.resps || Key(f) == StampOf(s.a, n);
      UpdateEnds(s.a, n, w, x, Key(f));
    }
  }

  /** The invariant holds again when one conversation was changed within its own invariant and no
      other conversation was touched. */
  lemma OneChanged(s: System, s1: System, h0: int)
    requires Inv(s) && Tables(s1.a) && s1.b == s.b
    requires Routed(s1.a, s1.ab, s1.b) && Routed(s1.b, s1.ba, s1.a)
    requires C.Inv(View(s1, h0))
    requires forall h | Active(s1, h) && h != h0 :: Active(s, h) && View(s1, h) == View(s, h)
    ensures Inv(s1)
  {
  }

  // ---------- the steps of the users ----------

  lemma UserConforms(m: Msg, h: int, act: C.Act)
    requires MsgOk(m, h) && UserAct(act) && (act.Flush? ==> C.FlushSafe(m))
    requires act.Write? && m.incomplete.Some? ==> |m.incomplete.value.data| <= PACK_DATA_SIZE
    requires act.Read? && !m.closed && m.availRead ==> Reading(m)
    requires act.Close? && !m.closed && m.availRead ==> m.readQ != []
    ensures Conforms(m, UserWork(m, act))
  {
    match act
    case Write(data) => WriteFacts(m, h, data); hide MsgCore.Write;
    case Read(size) => ReadFacts(m, h, size); hide MsgCore.Read;
    case Flush => if !m.closed && !m.discon { FlushFacts(m, h); } hide FlushOpen;
    case Accept =>
    case Close => if !m.closed && !m.discon { CloseFacts(m, h); } hide FlushOpen, CloseTail;
  }

  lemma UserAt(s: System, n: nat)
    requires Inv(s) && n in s.a.sw.msgs
    ensures Tables(s.a) && Entry(s.a, n) && n in s.a.past
  {
    hide C.Inv, Routed, View;
  }

  lemma UserStepKeeps(s: System, n: nat, act: C.Act)
    requires Inv(s) && Enabled(s, User(n, act))
    ensures Safe(s, User(n, act)) && Inv(Step(s, User(n, act)))
    ensures n in s.a.past && C.Enabled(View(s, StampOf(s.a, n)), act) && C.Safe(View(s, StampOf(s.a, n)), act)
    ensures View(Step(s, User(n, act)), StampOf(s.a, n)) == C.Step(View(s, StampOf(s.a, n)), act)
  {
    hide Inv, Tables, Routed, Update, C.Step, C.Inv, C.Safe, MsgOk, Sel, Known, UserWork;
    UserAt(s, n);
    ActiveStamp(s, n);
    var h0 := StampOf(s.a, n);
    var c := View(s, h0);
    var m := s.a.sw.msgs[n];
    C.StepKeeps(c, act);
    UserView(c, Alone(s.a, n), m, act);
    assert MsgOk(m, h0) by { LiveOk(c); }
    UserConforms(m, h0, act);
    var w := UserWork(m, act);
    var x := C.Step(Alone(s.a, n), act).a;
    UpdatedKeeps(s, Step(s, User(n, act)), n, w, x, false);
  }

  lemma LiveOk(c: C.Conv)
    requires C.Inv(c) && c.a.stage.Live?
    ensures MsgOk(c.a.stage.m, c.a.h)
  {
  }

  /** Work done on message n, and perhaps one frame of its conversation taken from the wire. */
  lemma UpdatedKeeps(s: System, s1: System, n: nat, w: Work, x: C.End, took: bool)
    requires Inv(s) && Ready(s.a, n, w)
    requires took ==> s.ba != [] && Key(s.ba[0]) == -StampOf(s.a, n)
    requires s1 == s.(a := Update(s.a, n, w, x), ba := if took then s.ba[1..] else s.ba)
    requires C.Inv(Absorbed(View(s, StampOf(s.a, n)), w, x, took))
    ensures View(s1, StampOf(s.a, n)) == Absorbed(View(s, StampOf(s.a, n)), w, x, took)
    ensures Inv(s1)
  {
    var h0 := StampOf(s.a, n);
    UpdatedView(s, s1, n, w, x, took);
    UpdateTables(s.a, n, w, x);
    UpdateRouted(s, n, w, x, s.ab);
    assert forall f | f in s1.ba + s.b.sw.resps :: f in s.ba + s.b.sw.resps;
    hide Update, C.Inv, Absorbed;
    forall h | Active(s1, h) && h != h0
      ensures Active(s, h) && View(s1, h) == View(s, h)
    {
      UpdatedOthers(s, s1, n, w, x, took, h);
    }
    OneChanged(s, s1, h0);
  }

  function Absorbed(c: C.Conv, w: Work, x: C.End, took: bool): C.Conv
    requires took ==> c.ba != []
  {
    C.Conv(Relog(C.Absorb(c.a, w), x),
           c.b, c.ab + C.Resps(w.emit), if took then c.ba[1..] else c.ba)
  }

  /** Taking a frame off the wire takes it from its own conversation and from no other. */
  lemma Received(s: System, s1: System, h0: int, took: bool, h: int)
    requires s1.b == s.b
    requires took ==> s.ba != [] && Key(s.ba[0]) == -h0
    requires s1.ba == if took then s.ba[1..] else s.ba
    ensures var (q, q1) := (Sel(s.ba + s.b.sw.resps, -h), Sel(s1.ba + s1.b.sw.resps, -h));
      if h == h0 && took then q == [Bare(s.ba[0])] + q1 else q1 == q
  {
    if took { SelHead(s.ba, s.b.sw.resps, -h); }
  }

  lemma ReadyEnd(nd: Node, n: nat, w: Work)
    requires Tables(nd) && Ready(nd, n, w)
    ensures Known(nd, StampOf(nd, n)) && EndAt(nd, StampOf(nd, n)) == EndOf(nd, n)
  {
    StampNames(nd, n, StampOf(nd, n));
    hide Tables, Entry;
  }

  lemma UpdatedView(s: System, s1: System, n: nat, w: Work, x: C.End, took: bool)
    requires Tables(s.a) && Ready(s.a, n, w)
    requires took ==> s.ba != [] && Key(s.ba[0]) == -StampOf(s.a, n)
    requires s1 == s.(a := Update(s.a, n, w, x), ba := if took then s.ba[1..] else s.ba)
    ensures took ==> View(s, StampOf(s.a, n)).ba != []
    ensures View(s1, StampOf(s.a, n)) == Absorbed(View(s, StampOf(s.a, n)), w, x, took)
  {
    hide Update, C.Absorb, C.Resps, Sel, Tables, EndAt, EndOf, Conforms, Known, Key, StampOf, Bare, IdOf, Relog;
    var h0 := StampOf(s.a, n);
    ReadyEnd(s.a, n, w);
    UpdateEnd(s.a, n, w, x);
    UpdateSent(s.a, n, w, x, s.ab, h0);
    Received(s, s1, h0, took, h0);
  }

  lemma UpdatedOthers(s: System, s1: System, n: nat, w: Work, x: C.End, took: bool, h: int)
    requires Tables(s.a) && Ready(s.a, n, w) && h != StampOf(s.a, n)
    requires took ==> s.ba != [] && Key(s.ba[0]) == -StampOf(s.a, n)
    requires s1 == s.(a := Update(s.a, n, w, x), ba := if took then s.ba[1..] else s.ba)
    ensures Active(s1, h) == Active(s, h) && View(s1, h) == View(s, h)
  {
    UpdateEnds(s.a, n, w, x, h);
    UpdateSent(s.a, n, w, x, s.ab, h);
    hide Update, Sel, Tables, EndAt, Ready, Known;
    Received(s, s1, StampOf(s.a, n), took, h);
    assert Sel(s1.ab + s1.a.sw.resps, h) == Sel(s.ab + s.a.sw.resps, h);
  }

  /** A user's step depends on the acting end alone. */
  lemma UserView(c: C.Conv, alone: C.Conv, m: Msg, act: C.Act)
    requires c.a == alone.a && c.a.stage == C.Live(m) && UserAct(act)
    requires C.Enabled(c, act) && C.Safe(c, act)
    ensures C.Enabled(alone, act) && C.Safe(alone, act)
    ensures var w := UserWork(m, act); var x := C.Step(alone, act).a;
      && C.Step(c, act) == c.(a := x, ab := c.ab + C.Resps(w.emit))
      && x == Relog(C.Absorb(c.a, w), x)
  {
  }

  // ---------- opening ----------

  lemma Unknown(s: System, h: int)
    requires Inv(s) && !Active(s, h) && h != 0
    ensures View(s, h) == C.Conv(C.NotYetEnd(h), C.NotYetEnd(-h), [], [])
  {
    assert !Known(s.a, h) && !Known(s.b, -h);
    SelNone(s.ab + s.a.sw.resps, h);
    SelNone(s.ba + s.b.sw.resps, -h);
  }

  lemma NotListed(nd: Node, id: nat)
    requires Tables(nd) && id !in nd.past
    ensures Entries(nd.sw.pend, id) == 0 && id !in nd.sw.msgs
  {
    assert id !in nd.sw.pend;
    assert id in nd.sw.msgs ==> Entry(nd, id);
  }

  function OpenNode(nd: Node, id: nat, typ: int): Node {
    nd.(sw := nd.sw.(msgs := nd.sw.msgs[id := MsgCore.Fresh(id, 0, typ).(connected := true)]),
        past := nd.past[id := NEW_PAST])
  }

  lemma OpenNodeTables(nd: Node, id: nat, typ: int)
    requires Tables(nd) && Fresh(nd, id)
    ensures Tables(OpenNode(nd, id, typ))
  {
    hide Entry;
    var nd1 := OpenNode(nd, id, typ);
    NotListed(nd, id);
    forall n | n in nd1.sw.msgs { OpenNodeEntry(nd, id, typ, n); }
  }

  lemma OpenNodeEntry(nd: Node, id: nat, typ: int, n: nat)
    requires Tables(nd) && Fresh(nd, id) && n in OpenNode(nd, id, typ).sw.msgs
    ensures Entry(OpenNode(nd, id, typ), n)
  {
    assert n != id ==> Entry(nd, n);
    hide Tables;
  }

  lemma OpenNodeEnds(nd: Node, id: nat, typ: int, h: int)
    requires Tables(nd) && Fresh(nd, id)
    ensures h != -(id as int) ==> Known(OpenNode(nd, id, typ), h) == Known(nd, h) && EndAt(OpenNode(nd, id, typ), h) == EndAt(nd, h)
    ensures Known(OpenNode(nd, id, typ), -(id as int))
    ensures EndAt(OpenNode(nd, id, typ), -(id as int)) == C.Opened(id, typ).a
  {
    NotListed(nd, id);
    hide Entry;
  }

  lemma OpenStep(s: System, id: nat, typ: int)
    requires Inv(s) && Enabled(s, Open(id, typ))
    ensures var s1 := Step(s, Open(id, typ)); s1.a == OpenNode(s.a, id, typ) && s1 == s.(a := s1.a)
    ensures s.a.sw.resps == OpenNode(s.a, id, typ).sw.resps && Tables(s.a) && Fresh(s.a, id) && !Known(s.a, -(id as int)) && id > 0
  {
    hide Tables, C.Inv, View;
  }

  lemma OpenView(s: System, id: nat, typ: int, h: int)
    requires Inv(s) && Enabled(s, Open(id, typ))
    ensures var s1 := Step(s, Open(id, typ)); var h0 := -(id as int);
      if h == h0 then View(s1, h) == C.Opened(id, typ)
      else View(s1, h) == View(s, h) && Active(s1, h) == Active(s, h)
  {
    hide Inv, Sel, OpenNode, EndAt, C.Opened, Known, Tables;
    OpenStep(s, id, typ);
    if h == -(id as int) { Unknown(s, h); }
    OpenNodeEnds(s.a, id, typ, h);
    OpenedEnds(id, typ);
  }

  lemma OpenRouted(s: System, id: nat, typ: int)
    requires Inv(s) && Enabled(s, Open(id, typ))
    ensures var nd := OpenNode(s.a, id, typ); Routed(nd, s.ab, s.b) && Routed(s.b, s.ba, nd)
  {
    forall h
      ensures Known(s.a, h) ==> Known(OpenNode(s.a, id, typ), h)
    {
      OpenNodeEnds(s.a, id, typ, h);
    }
    hide Tables, Known, C.Inv, View;
  }

  lemma OpenKeeps(s: System, id: nat, typ: int)
    requires Inv(s) && Enabled(s, Open(id, typ))
    ensures Inv(Step(s, Open(id, typ)))
  {
    var s1 := Step(s, Open(id, typ));
    var h0 := -(id as int);
    OpenNodeTables(s.a, id, typ);
    OpenRouted(s, id, typ);
    C.OpenedInv(id, typ);
    OpenView(s, id, typ, h0);
    assert s1 == s.(a := OpenNode(s.a, id, typ));
    hide C.Inv, Tables, OpenNode, Active, C.Opened, View, Routed, Step;
    forall h
      ensures h != h0 ==> View(s1, h) == View(s, h) && Active(s1, h) == Active(s, h)
    {
      OpenView(s, id, typ, h);
    }
    OneChanged(s, s1, h0);
  }

  lemma OpenedEnds(id: nat, typ: int)
    ensures var c := C.Opened(id, typ); c == C.Conv(c.a, C.NotYetEnd(id), [], [])
  {
  }

  // ---------- sending ----------

  /** Changing the lists of a switch, and not how often a message is on the send list. */
  lemma ListsOnly(nd: Node, nd1: Node, h: int)
    requires nd1 == nd.(sw := nd.sw.(resps := nd1.sw.resps, pend := nd1.sw.pend, armed := nd1.sw.armed))
    requires Known(nd, h) ==> Entries(nd1.sw.pend, IdOf(nd, h)) == Entries(nd.sw.pend, IdOf(nd, h))
    ensures Known(nd1, h) == Known(nd, h) && EndAt(nd1, h) == EndAt(nd, h)
  {
  }

  lemma ListsTables(nd: Node, nd1: Node)
    requires Tables(nd)
    requires nd1 == nd.(sw := nd.sw.(resps := nd1.sw.resps, pend := nd1.sw.pend, armed := nd1.sw.armed))
    requires nd1.sw.armed <==> nd1.sw.HasWrites()
    requires forall f | f in nd1.sw.resps :: f in nd.sw.resps
    requires forall n | n in nd1.sw.pend :: n in nd.sw.pend
    ensures Tables(nd1)
  {
    forall n | n in nd1.sw.msgs
      ensures Entry(nd1, n)
    {
      assert Entry(nd, n);
    }
  }

  /** A response that leaves for the wire stays in the stream of its conversation. */
  lemma SendRespKeeps(s: System)
    requires Inv(s) && s.a.sw.resps != []
    ensures Inv(SendFrame(s))
    ensures forall h :: View(SendFrame(s), h) == View(s, h)
  {
    var s1 := SendFrame(s);
    assert s1.ab + s1.a.sw.resps == s.ab + s.a.sw.resps;
    assert forall f | f in s1.a.sw.resps :: f in s.a.sw.resps;
    ListsTables(s.a, s1.a);
    hide Sel, C.Inv, Tables, EndAt, Known;
    forall h
      ensures View(s1, h) == View(s, h) && Known(s1.a, h) == Known(s.a, h)
    {
      ListsOnly(s.a, s1.a, h);
    }
    assert Routed(s1.a, s1.ab, s1.b) && Routed(s1.b, s1.ba, s1.a);
  }

  /** The send list holds exactly the writing messages, each once. */
  lemma SendListExact(s: System, n: nat)
    requires Inv(s)
    ensures Entries(s.a.sw.pend, n) == Bit(n in s.a.sw.msgs && s.a.sw.msgs[n].writing)
    ensures n in s.a.sw.pend ==> n in s.a.past && n in s.a.sw.msgs && s.a.sw.msgs[n].writQ != []
  {
    if n in s.a.past {
      ActiveStamp(s, n);
      assert C.EndOk(View(s, StampOf(s.a, n)).a);
    } else {
      NotListed(s.a, n);
    }
    hide Sel, C.Flow;
  }

  lemma PopEntries(q: seq<nat>, m: nat)
    requires q != []
    ensures Entries(q[1..], m) == Entries(q, m) - Bit(m == q[0])
    ensures forall k | k in q[1..] :: k in q
  {
    assert q == [q[0]] + q[1..];
  }

  lemma UnlistFacts(nd: Node, h: int)
    requires Tables(nd) && nd.sw.pend != []
    ensures Tables(Unlist(nd)) && Known(Unlist(nd), h) == Known(nd, h)
    ensures Unlist(nd).sw.resps == nd.sw.resps && Unlist(nd).acc == nd.acc
    ensures var h0 := StampOf(nd, nd.sw.pend[0]);
      && (h != h0 ==> EndAt(Unlist(nd), h) == EndAt(nd, h))
      && EndAt(nd, h0).sched > 0
      && EndAt(Unlist(nd), h0) == EndAt(nd, h0).(sched := EndAt(nd, h0).sched - 1)
  {
    var n := nd.sw.pend[0];
    PopEntries(nd.sw.pend, n);
    ListsTables(nd, Unlist(nd));
    StampNames(nd, n, h);
    StampNames(nd, n, StampOf(nd, n));
    if Known(nd, h) { PopEntries(nd.sw.pend, IdOf(nd, h)); }
    hide Entry, Tables;
  }

  predicate Quiet(w: Work) { w.emit == [] && w.push == 0 && !w.drop && !w.freed }

  /** What is left of the send list by work that enters and leaves nothing. */
  lemma QuietLists(nd: Node, n: nat, w: Work)
    requires Ready(nd, n, w) && Quiet(w)
    ensures var nd1 := React(nd, n, w, false); nd1.sw.pend == nd.sw.pend && nd1.sw.resps == nd.sw.resps && nd1.acc == nd.acc
    ensures StampOf(React(nd, n, w, false), n) == StampOf(nd, n)
  {
  }

  lemma SentEnd(nd: Node, w: Work, h: int)
    requires Tables(nd) && nd.sw.pend != [] && Ready(nd, nd.sw.pend[0], w) && Quiet(w)
    ensures var nd1 := Unlist(React(nd, nd.sw.pend[0], w, false));
      && Tables(nd1) && Known(nd1, h) == Known(nd, h) && nd1.sw.resps == nd.sw.resps && nd1.acc == nd.acc
      && var (h0, x) := (StampOf(nd, nd.sw.pend[0]), EndOf(nd, nd.sw.pend[0]));
        && (h != h0 ==> EndAt(nd1, h) == EndAt(nd, h))
        && x.sched > 0 && EndAt(nd1, h0) == C.Absorb(x.(sched := x.sched - 1), w)
  {
    var n := nd.sw.pend[0];
    var x := C.Absorb(EndOf(nd, n), w);
    QuietLists(nd, n, w);
    UpdateTables(nd, n, w, x);
    UpdateEnds(nd, n, w, x, h);
    UpdateEnd(nd, n, w, x);
    assert React(nd, n, w, false) == Update(nd, n, w, x);
    hide React, Update, Tables, Known, EndAt, Ready;
    UnlistFacts(Update(nd, n, w, x), h);
  }

  lemma SentStream(fs: seq<Frame>, f: Frame, h: int)
    ensures Sel(fs + [f] + [], h) == Sel(fs + [], h) + (if Key(f) == h then [Bare(f)] else [])
  {
    assert fs + [f] + [] == fs + [f] && fs + [] == fs;
    SelAppend(fs, [f], h);
    SelOne(f, h);
  }

  predicate Sends(s: System, s1: System, w: Work, f: Frame) {
    && s.a.sw.resps == [] && s.a.sw.pend != [] && Ready(s.a, s.a.sw.pend[0], w) && Quiet(w)
    && f.Pack? && Key(f) == StampOf(s.a, s.a.sw.pend[0])
    && s1 == s.(a := Unlist(React(s.a, s.a.sw.pend[0], w, false)), ab := s.ab + [f])
  }

  lemma SentView(s: System, s1: System, w: Work, f: Frame)
    requires Tables(s.a) && Sends(s, s1, w, f)
    ensures var h0 := StampOf(s.a, s.a.sw.pend[0]); var c := View(s, h0);
      c.a.sched > 0 && View(s1, h0) == c.(a := C.Absorb(c.a.(sched := c.a.sched - 1), w), ab := c.ab + [Bare(f)])
  {
    var h0 := StampOf(s.a, s.a.sw.pend[0]);
    StampNames(s.a, s.a.sw.pend[0], h0);
    SentEnd(s.a, w, h0);
    SentStream(s.ab, f, h0);
    assert EndAt(s.a, h0) == EndOf(s.a, s.a.sw.pend[0]);
    hide React, Unlist, Sel, Tables, Known, EndAt, EndOf, Ready, C.Absorb;
  }

  lemma SentOthers(s: System, s1: System, w: Work, f: Frame, h: int)
    requires Tables(s.a) && Sends(s, s1, w, f) && h != Key(f)
    ensures Active(s1, h) == Active(s, h) && View(s1, h) == View(s, h)
  {
    SentEnd(s.a, w, h);
    SentStream(s.ab, f, h);
    hide React, Unlist, Sel, Tables, Known, EndAt, Ready, C.Absorb;
  }

  lemma SelOne(f: Frame, h: int)
    ensures Sel([f], h) == if Key(f) == h then [Bare(f)] else []
  {
    assert [f][1..] == [];
  }

  lemma SentRouted(s: System, s1: System, w: Work, f: Frame)
    requires Inv(s) && Sends(s, s1, w, f)
    ensures Routed(s1.a, s1.ab, s1.b) && Routed(s1.b, s1.ba, s1.a)
  {
    hide React, Unlist, Tables, Known, C.Inv, View, StampOf, Conforms, Active;
    SentEnd(s.a, w, 0);
    forall h ensures Known(s1.a, h) == Known(s.a, h) { SentEnd(s.a, w, h); }
    assert forall g | g in s1.ab + s1.a.sw.resps :: g in s.ab + s.a.sw.resps || g == f;
    ActiveStamp(s, s.a.sw.pend[0]);
    StampNonzero(s.a, s.a.sw.pend[0]);
  }

  lemma StampNonzero(nd: Node, n: nat)
    requires Tables(nd) && n in nd.past
    ensures StampOf(nd, n) != 0
  {
  }

  lemma PopConforms(m: Msg, h: int)
    requires MsgOk(m, h) && m.writing
    ensures Conforms(m, PopWrit(Start(m))) && Quiet(PopWrit(Start(m))) && m.writQ[0].msgid == h
  {
    PopWritFacts(m, h);
    hide PopWrit;
  }

  /** The first message on the send list is one that its conversation may send from. */
  lemma FirstMaySend(s: System)
    requires Inv(s) && s.a.sw.pend != []
    ensures var n := s.a.sw.pend[0];
      && n in s.a.past && n in s.a.sw.msgs && s.a.sw.msgs[n].writing && MsgOk(s.a.sw.msgs[n], StampOf(s.a, n))
      && s.a.sw.msgs[n].writQ != []
    ensures var c := View(s, StampOf(s.a, s.a.sw.pend[0]));
      c.a == EndOf(s.a, s.a.sw.pend[0]) && c.a.sched > 0 && C.Inv(c)
  {
    var n := s.a.sw.pend[0];
    SendListExact(s, n);
    ActiveStamp(s, n);
    PopEntries(s.a.sw.pend, n);
    LiveOk(View(s, StampOf(s.a, n)));
    hide Inv, Sel, C.Inv, QueueOk;
  }

  lemma SendsNow(s: System, w: Work)
    requires s.a.sw.resps == [] && s.a.sw.pend != []
    requires var n := s.a.sw.pend[0];
      && n in s.a.sw.msgs && n in s.a.past && s.a.sw.msgs[n].writQ != []
      && w == PopWrit(Start(s.a.sw.msgs[n])) && Conforms(s.a.sw.msgs[n], w) && Quiet(w)
      && s.a.sw.msgs[n].writQ[0].msgid == StampOf(s.a, n)
    ensures Sends(s, SendFrame(s), w, Pack(s.a.sw.msgs[s.a.sw.pend[0]].writQ[0]))
  {
    hide PopWrit, React;
  }

  lemma SendPackSafe(s: System)
    requires Inv(s) && s.a.sw.pend != []
    ensures var n := s.a.sw.pend[0]; n in s.a.sw.msgs && n in s.a.past && s.a.sw.msgs[n].writQ != []
    ensures var c := View(s, StampOf(s.a, s.a.sw.pend[0]));
      C.Enabled(c, C.Act.Send) && C.Safe(c, C.Act.Send) && C.Inv(C.Step(c, C.Act.Send))
  {
    FirstMaySend(s);
    hide Sel, C.Inv, Tables, Known, Routed, MsgOk, C.Step, EndAt;
    C.StepKeeps(View(s, StampOf(s.a, s.a.sw.pend[0])), C.Act.Send);
  }

  lemma SendPackReady(s: System, w: Work)
    requires Inv(s) && s.a.sw.resps == [] && s.a.sw.pend != []
    requires var n := s.a.sw.pend[0];
      n in s.a.sw.msgs && n in s.a.past && s.a.sw.msgs[n].writQ != [] && w == PopWrit(Start(s.a.sw.msgs[n]))
    ensures Sends(s, SendFrame(s), w, Pack(s.a.sw.msgs[s.a.sw.pend[0]].writQ[0])) && Quiet(w)
    ensures View(s, StampOf(s.a, s.a.sw.pend[0])).a == EndOf(s.a, s.a.sw.pend[0])
  {
    FirstMaySend(s);
    PopConforms(s.a.sw.msgs[s.a.sw.pend[0]], StampOf(s.a, s.a.sw.pend[0]));
    SendsNow(s, w);
    hide Inv, MsgOk, SendFrame, Sends, Conforms, PopWrit, View;
  }

  lemma SendPackView(s: System)
    requires Inv(s) && s.a.sw.resps == [] && s.a.sw.pend != []
    requires var n := s.a.sw.pend[0]; n in s.a.sw.msgs && n in s.a.past && s.a.sw.msgs[n].writQ != []
    requires var c := View(s, StampOf(s.a, s.a.sw.pend[0])); C.Enabled(c, C.Act.Send) && C.Safe(c, C.Act.Send)
    ensures View(SendFrame(s), StampOf(s.a, s.a.sw.pend[0])) == C.Step(View(s, StampOf(s.a, s.a.sw.pend[0])), C.Act.Send)
  {
    var n := s.a.sw.pend[0];
    var m := s.a.sw.msgs[n];
    var w := PopWrit(Start(m));
    SendPackReady(s, w);
    SentView(s, SendFrame(s), w, Pack(m.writQ[0]));
    hide View, Inv, PopWrit, SendFrame, Sends, C.Absorb, C.Step, C.Enabled, C.Safe;
    SentStep(View(s, StampOf(s.a, n)), m);
  }

  lemma SendPackKeeps(s: System)
    requires Inv(s) && s.a.sw.resps == [] && s.a.sw.pend != []
    requires var n := s.a.sw.pend[0]; n in s.a.sw.msgs && n in s.a.past && s.a.sw.msgs[n].writQ != []
    ensures Inv(SendFrame(s))
  {
    SendPackSafe(s);
    SendPackView(s);
    SendPackReady(s, PopWrit(Start(s.a.sw.msgs[s.a.sw.pend[0]])));
    hide C.Inv, Tables, Routed, MsgOk, C.Step, Sends, SendFrame, View, Active, C.Enabled, C.Safe, PopWrit;
    var n := s.a.sw.pend[0];
    var h0 := StampOf(s.a, n);
    var m := s.a.sw.msgs[n];
    var w := PopWrit(Start(m));
    var f := Pack(m.writQ[0]);
    var s1 := SendFrame(s);
    SentRouted(s, s1, w, f);
    SentFacts(s, s1, w, f);
    forall h | Active(s1, h) && h != h0
      ensures Active(s, h) && View(s1, h) == View(s, h)
    {
      SentOthers(s, s1, w, f, h);
    }
    OneChanged(s, s1, h0);
  }

  lemma SentFacts(s: System, s1: System, w: Work, f: Frame)
    requires Tables(s.a) && Sends(s, s1, w, f)
    ensures Tables(s1.a) && s1.b == s.b && Key(f) == StampOf(s.a, s.a.sw.pend[0])
  {
    SentEnd(s.a, w, 0);
  }

  lemma SentStep(c: C.Conv, m: Msg)
    requires c.a.stage == C.Live(m) && c.a.sched > 0 && m.writQ != [] && Quiet(PopWrit(Start(m)))
    ensures C.Step(c, C.Act.Send) ==
      c.(a := C.Absorb(c.a.(sched := c.a.sched - 1), PopWrit(Start(m))), ab := c.ab + [C.Pack(m.writQ[0])])
  {
    hide PopWrit, C.Absorb;
    assert c.ab + [C.Pack(m.writQ[0])] + C.Resps([]) == c.ab + [C.Pack(m.writQ[0])];
  }

  // ---------- receiving ----------

  /** The first frame on the wire is the first of its conversation. */
  lemma HeadActive(s: System)
    requires Inv(s) && s.ba != []
    ensures var h0 := -Key(s.ba[0]);
      Active(s, h0) && C.Inv(View(s, h0)) && View(s, h0).ba != [] && View(s, h0).ba[0] == Bare(s.ba[0])
  {
    assert s.ba[0] in s.ba + s.b.sw.resps;
    SelHead(s.ba, s.b.sw.resps, Key(s.ba[0]));
    hide C.Inv, Sel;
  }

  /** The id table leads from a frame to the message of its conversation, and to no other. */
  lemma LookupFinds(s: System, h: int)
    requires Inv(s) && Active(s, h)
    ensures match Lookup(s.a.sw, -h)
      case Some(n) => n in s.a.past && n in s.a.sw.msgs && StampOf(s.a, n) == h && EndAt(s.a, h) == EndOf(s.a, n)
      case None => EndAt(s.a, h).stage.Live? ==> EndAt(s.a, h).stage.m.discon
  {
    match Lookup(s.a.sw, -h)
    case Some(n) =>
      assert Entry(s.a, n);
      StampNames(s.a, n, h);
      hide Sel, C.Inv;
    case None =>
      if Known(s.a, h) && IdOf(s.a, h) in s.a.sw.msgs { assert Entry(s.a, IdOf(s.a, h)); }
      hide Sel, C.Inv;
  }

  lemma MayHappen(c: C.Conv, f: Frame, newId: nat)
    requires C.Inv(c) && c.ba != [] && c.ba[0] == Bare(f) && newId > 0
    requires f.Resp? && f.st.Discon? && c.a.stage.Live? && !c.a.stage.m.discon ==> DrainSafe(c.a.stage.m)
    ensures C.Enabled(c, C.Act.Recv(newId))
  {
    if f.Resp? && f.st.Discon? { C.DisconFindsLive(c); }
    hide C.Inv;
  }

  lemma DisconMayArrive(s: System, newId: nat)
    requires Inv(s) && Enabled(s, Recv(newId)) && s.ba[0].Resp? && s.ba[0].st.Discon?
    ensures var x := EndAt(s.a, -Key(s.ba[0])); x.stage.Live? && !x.stage.m.discon ==> DrainSafe(x.stage.m)
  {
    hide Inv, C.Inv, EndAt, View, Active, Lookup, DrainSafe;
    HeadActive(s);
    LookupFinds(s, -Key(s.ba[0]));
  }

  lemma RecvMayHappen(s: System, newId: nat)
    requires Inv(s) && Enabled(s, Recv(newId))
    ensures C.Enabled(View(s, -Key(s.ba[0])), C.Act.Recv(newId)) && C.Inv(View(s, -Key(s.ba[0])))
  {
    HeadActive(s);
    if s.ba[0].Resp? && s.ba[0].st.Discon? { DisconMayArrive(s, newId); }
    assert View(s, -Key(s.ba[0])).a == EndAt(s.a, -Key(s.ba[0]));
    hide Inv, C.Inv, EndAt, View, C.Enabled, Active, Lookup, DrainSafe, Bare, Tables, Routed, Sel;
    MayHappen(View(s, -Key(s.ba[0])), s.ba[0], newId);
  }

  lemma RecvEnabled(s: System, newId: nat)
    requires Inv(s) && Enabled(s, Recv(newId))
    ensures var c := View(s, -Key(s.ba[0]));
      C.Enabled(c, C.Act.Recv(newId)) && C.Safe(c, C.Act.Recv(newId)) && C.Inv(c) && C.Inv(C.Step(c, C.Act.Recv(newId)))
  {
    RecvMayHappen(s, newId);
    hide Inv, Enabled, View, C.Inv, C.Step, C.Enabled, C.Safe;
    C.StepKeeps(View(s, -Key(s.ba[0])), C.Act.Recv(newId));
  }

  /** What the frame at the head meets, whether or not the table leads to a message. */
  predicate Meets(found: Option<Msg>, f: Frame) {
    match f
    case Pack(p) => if found.Some? then !found.value.discon else p.msgid < 0
    case Resp(_, st) =>
      found.Some? ==>
        && RespExpected(found.value, st)
        && (found.value.availWrit ==> found.value.writQ != [])
        && (found.value.discon ==> st.Ok?)
  }

  lemma MeetsWell(c: C.Conv, f: Frame, found: Option<Msg>, newId: nat)
    requires C.Inv(c) && c.ba != [] && c.ba[0] == Bare(f)
    requires C.Enabled(c, C.Act.Recv(newId)) && C.Safe(c, C.Act.Recv(newId))
    requires if found.Some? then c.a.stage == C.Live(found.value) else c.a.stage.Live? ==> c.a.stage.m.discon
    ensures Meets(found, f)
  {
    if c.a.stage.Live? { LiveOk(c); }
    hide C.Inv, QueueOk;
  }

  lemma RecvSafe(s: System, newId: nat)
    requires Inv(s) && Enabled(s, Recv(newId))
    ensures Safe(s, Recv(newId))
  {
    RecvMeets(s, newId);
    RecvPast(s);
    hide Inv, View, EndAt, Active, Fresh, RespExpected;
  }

  function Found(s: System): Option<Msg>
    requires s.ba != []
  {
    match Lookup(s.a.sw, Key(s.ba[0]))
    case Some(n) => if n in s.a.sw.msgs then Some(s.a.sw.msgs[n]) else None
    case None => None
  }

  lemma RecvPast(s: System)
    requires Inv(s) && s.ba != []
    ensures match Lookup(s.a.sw, Key(s.ba[0])) case Some(n) => n in s.a.past && n in s.a.sw.msgs case None => true
  {
    hide Inv, View, EndAt, C.Inv;
    HeadActive(s);
    LookupFinds(s, -Key(s.ba[0]));
  }

  lemma FoundAtEnd(s: System)
    requires Inv(s) && s.ba != []
    ensures var x := EndAt(s.a, -Key(s.ba[0]));
      if Found(s).Some? then x.stage == C.Live(Found(s).value) else x.stage.Live? ==> x.stage.m.discon
  {
    hide Inv, View, C.Inv, EndAt;
    HeadActive(s);
    LookupFinds(s, -Key(s.ba[0]));
  }

  lemma RecvMeets(s: System, newId: nat)
    requires Inv(s) && Enabled(s, Recv(newId))
    ensures s.ba != [] && Meets(Found(s), s.ba[0])
  {
    assert s.ba != [];
    hide Inv, Enabled, C.Inv, C.Step, View, EndAt, Active, C.Enabled, C.Safe, Bare, Key, Meets, Found;
    HeadActive(s);
    FoundAtEnd(s);
    RecvEnabled(s, newId);
    ViewA(s, -Key(s.ba[0]));
    MeetsWell(View(s, -Key(s.ba[0])), s.ba[0], Found(s), newId);
  }

  lemma ViewA(s: System, h: int)
    ensures View(s, h).a == EndAt(s.a, h)
  {
    hide Sel, EndAt;
  }

  lemma RecvPackConforms(m: Msg, h: int, p: Packet)
    requires MsgOk(m, h) && !m.discon && !m.needResp
    ensures Conforms(m, RecvPack(m, p))
  {
    RecvPackFacts(m, h, p);
    hide RecvPack;
  }

  lemma RecvRespConforms(m: Msg, h: int, st: Status)
    requires MsgOk(m, h) && RespExpected(m, st) && DrainSafeFor(m, st) && (m.discon ==> st.Ok?)
    ensures Conforms(m, RecvResp(m, st))
  {
    if !m.sentDiscon {
      if st.Ok? { RecvOkFacts(m, h); } else { RecvDisconFacts(m, h); }
    }
    hide PushWrit, DrainWrit;
  }

  predicate DrainSafeFor(m: Msg, st: Status) { st.Discon? ==> DrainSafe(m) }

  /** What the frame at the head does to the message it names. */
  function Reaction(m: Msg, f: Frame): Work
    requires f.Resp? ==> RespExpected(m, f.st) && (m.availWrit ==> m.writQ != [])
  {
    match f
    case Pack(p) => RecvPack(m, p)
    case Resp(_, st) => RecvResp(m, st)
  }

  /** The end of message n after its reaction to f. */
  function Answered(x: C.End, m: Msg, f: Frame): C.End
    requires f.Resp? ==> RespExpected(m, f.st) && (m.availWrit ==> m.writQ != [])
  {
    var y := C.Absorb(x, Reaction(m, f));
    y.(gotDiscon := y.gotDiscon || (f.Resp? && f.st.Discon?))
  }

  lemma ReceiveStep(c: C.Conv, m: Msg, f: Frame, newId: nat)
    requires c.a.stage == C.Live(m) && c.ba != [] && c.ba[0] == Bare(f) && MsgOk(m, c.a.h)
    requires C.Enabled(c, C.Act.Recv(newId)) && C.Safe(c, C.Act.Recv(newId))
    ensures f.Resp? ==> RespExpected(m, f.st) && (m.availWrit ==> m.writQ != [])
    ensures C.Step(c, C.Act.Recv(newId)) == Absorbed(c, Reaction(m, f), Answered(c.a, m, f), true)
  {
    hide QueueOk, RecvPack, DrainWrit, PushWrit;
    assert c.ab + C.Resps([]) == c.ab;
  }

  /** The frame finds its message. */
  lemma RecvFound(s: System, newId: nat, n: nat)
    requires Inv(s) && Enabled(s, Recv(newId)) && Lookup(s.a.sw, Key(s.ba[0])) == Some(n)
    ensures n in s.a.sw.msgs && n in s.a.past && StampOf(s.a, n) == -Key(s.ba[0])
    ensures var c := View(s, -Key(s.ba[0]));
      && c.a == EndOf(s.a, n) && c.a.stage == C.Live(s.a.sw.msgs[n]) && MsgOk(s.a.sw.msgs[n], c.a.h) && C.Inv(c)
      && c.ba != [] && c.ba[0] == Bare(s.ba[0])
  {
    HeadActive(s);
    LookupFinds(s, -Key(s.ba[0]));
    assert View(s, -Key(s.ba[0])).a == EndAt(s.a, -Key(s.ba[0]));
    hide Inv, Sel, C.Inv, EndAt, View, Active, MsgOk;
    LiveOk(View(s, -Key(s.ba[0])));
  }

  lemma RecvFoundWork(s: System, newId: nat, n: nat)
    requires Inv(s) && Enabled(s, Recv(newId)) && Lookup(s.a.sw, Key(s.ba[0])) == Some(n)
    ensures n in s.a.sw.msgs && n in s.a.past && StampOf(s.a, n) == -Key(s.ba[0])
    ensures var (f, m, c) := (s.ba[0], s.a.sw.msgs[n], View(s, -Key(s.ba[0])));
      && (f.Resp? ==> RespExpected(m, f.st) && (m.availWrit ==> m.writQ != []))
      && Conforms(m, Reaction(m, f))
      && c.ba != []
      && C.Inv(Absorbed(c, Reaction(m, f), Answered(EndOf(s.a, n), m, f), true))
  {
    RecvFound(s, newId, n);
    RecvEnabled(s, newId);
    hide Inv, Sel, C.Inv, C.Step, C.Enabled, C.Safe, EndAt, EndOf, MsgOk, Reaction, View, C.Absorb, Enabled, Lookup, Bare, Absorbed, Answered, RespExpected, Conforms;
    FoundWork(View(s, -Key(s.ba[0])), s.a.sw.msgs[n], s.ba[0], newId);
    ReceiveStep(View(s, -Key(s.ba[0])), s.a.sw.msgs[n], s.ba[0], newId);
  }

  lemma RecvFoundKeeps(s: System, newId: nat, n: nat)
    requires Inv(s) && Enabled(s, Recv(newId)) && Safe(s, Recv(newId)) && Lookup(s.a.sw, Key(s.ba[0])) == Some(n)
    ensures Inv(Step(s, Recv(newId)))
  {
    hide Inv, C.Inv, View, Update, Step, Safe, Lookup, Absorbed, Conforms, Key, StampOf, Reaction, Answered, EndOf, RespExpected;
    FoundStep(s, newId, n);
    RecvFoundWork(s, newId, n);
    var f := s.ba[0];
    var m := s.a.sw.msgs[n];
    UpdatedKeeps(s, Step(s, Recv(newId)), n, Reaction(m, f), Answered(EndOf(s.a, n), m, f), true);
  }

  lemma FoundWork(c: C.Conv, m: Msg, f: Frame, newId: nat)
    requires c.a.stage == C.Live(m) && c.ba != [] && c.ba[0] == Bare(f) && MsgOk(m, c.a.h) && C.Inv(c)
    requires C.Enabled(c, C.Act.Recv(newId)) && C.Safe(c, C.Act.Recv(newId))
    ensures f.Resp? ==> RespExpected(m, f.st) && (m.availWrit ==> m.writQ != [])
    ensures Conforms(m, Reaction(m, f))
  {
    if f.Pack? {
      PackNeedsRoom(c, m);
      RecvPackConforms(m, c.a.h, f.p);
    } else {
      RecvRespConforms(m, c.a.h, f.st);
    }
    hide RecvPack, RecvResp, QueueOk;
  }

  /** A packet arrives only where the window has room. */
  lemma PackNeedsRoom(c: C.Conv, m: Msg)
    requires C.Inv(c) && c.a.stage == C.Live(m) && !m.discon && c.ba != [] && c.ba[0].Pack?
    ensures !m.needResp
  {
    C.HeadCounts(c.ba);
    hide Flat;
  }

  lemma FoundStep(s: System, newId: nat, n: nat)
    requires Enabled(s, Recv(newId)) && Safe(s, Recv(newId)) && Lookup(s.a.sw, Key(s.ba[0])) == Some(n)
    ensures n in s.a.sw.msgs && n in s.a.past
    ensures var (f, m) := (s.ba[0], s.a.sw.msgs[n]);
      && (f.Resp? ==> RespExpected(m, f.st) && (m.availWrit ==> m.writQ != []))
      && Step(s, Recv(newId)) ==
          s.(a := Update(s.a, n, Reaction(m, f), Answered(EndOf(s.a, n), m, f)), ba := s.ba[1..])
  {
    hide RecvPack, RecvResp, Update, EndOf, C.Absorb;
  }

  lemma DroppedView(s: System, newId: nat)
    requires Inv(s) && Enabled(s, Recv(newId))
    requires Lookup(s.a.sw, Key(s.ba[0])) == None && s.ba[0].Resp?
    ensures View(s, -Key(s.ba[0])).ba != [] && C.Inv(View(s, -Key(s.ba[0])).(ba := View(s, -Key(s.ba[0])).ba[1..]))
  {
    assert s.ba != [];
    hide Inv, C.Inv, C.Step, Tables, EndAt, Sel, C.Enabled, C.Safe, Enabled, Lookup;
    HeadActive(s);
    LookupFinds(s, -Key(s.ba[0]));
    RecvEnabled(s, newId);
    DroppedStep(View(s, -Key(s.ba[0])), newId);
  }

  lemma TakenRouted(s: System, s1: System)
    requires Inv(s) && s.ba != [] && s1 == s.(ba := s.ba[1..])
    ensures Tables(s1.a) && Routed(s1.a, s1.ab, s1.b) && Routed(s1.b, s1.ba, s1.a)
  {
    hide Tables, C.Inv, Sel, View, Known;
    assert forall f | f in s1.ba + s1.b.sw.resps :: f in s.ba + s.b.sw.resps;
  }

  lemma TakenView(s: System, s1: System, h: int)
    requires s.ba != [] && s1 == s.(ba := s.ba[1..])
    ensures Active(s1, h) == Active(s, h)
    ensures h != -Key(s.ba[0]) ==> View(s1, h) == View(s, h)
    ensures h == -Key(s.ba[0]) ==> View(s, h).ba != [] && View(s1, h) == View(s, h).(ba := View(s, h).ba[1..])
  {
    hide Sel, EndAt, Known;
    Received(s, s1, -Key(s.ba[0]), true, h);
  }

  lemma TakenKeeps(s: System, s1: System)
    requires Inv(s) && s.ba != [] && s1 == s.(ba := s.ba[1..])
    requires var c := View(s, -Key(s.ba[0])); c.ba != [] && C.Inv(c.(ba := c.ba[1..]))
    ensures Inv(s1)
  {
    hide Inv, C.Inv, View, Tables, Active, Routed, Key;
    TakenRouted(s, s1);
    TakenView(s, s1, -Key(s.ba[0]));
    forall h | Active(s1, h) && h != -Key(s.ba[0])
      ensures Active(s, h) && View(s1, h) == View(s, h)
    {
      TakenView(s, s1, h);
    }
    OneChanged(s, s1, -Key(s.ba[0]));
  }

  /** An acknowledgement that no longer finds its message is dropped. */
  lemma RecvDroppedKeeps(s: System, newId: nat)
    requires Inv(s) && Enabled(s, Recv(newId)) && Safe(s, Recv(newId))
    requires Lookup(s.a.sw, Key(s.ba[0])) == None && s.ba[0].Resp?
    ensures Inv(Step(s, Recv(newId)))
  {
    assert s.ba != [] && Step(s, Recv(newId)) == s.(ba := s.ba[1..]);
    hide Step, Safe, C.Inv, Lookup, View, Enabled, Inv;
    DroppedView(s, newId);
    TakenKeeps(s, Step(s, Recv(newId)));
  }

  lemma DroppedStep(c: C.Conv, newId: nat)
    requires C.Enabled(c, C.Act.Recv(newId)) && C.Safe(c, C.Act.Recv(newId)) && C.Inv(c)
    requires c.ba[0].Resp? && (c.a.stage.Live? ==> c.a.stage.m.discon)
    requires C.Inv(C.Step(c, C.Act.Recv(newId)))
    ensures C.Inv(c.(ba := c.ba[1..]))
  {
    if c.ba[0].st.Discon? { C.DisconFindsLive(c); }
    hide C.Inv;
  }

  // ---------- a message is created ----------

  lemma CreateEntry(nd: Node, newId: nat, origin: nat, typ: int, n: nat)
    requires Tables(nd) && Fresh(nd, newId) && origin > 0 && origin !in nd.acc
    requires n in Create(nd, newId, origin, typ).sw.msgs
    ensures Entry(Create(nd, newId, origin, typ), n)
  {
    assert n != newId ==> Entry(nd, n);
    assert n != newId && nd.past[n].origin != 0 ==> nd.past[n].origin in nd.acc;
  }

  lemma CreateTables(nd: Node, newId: nat, origin: nat, typ: int)
    requires Tables(nd) && Fresh(nd, newId) && origin > 0 && origin !in nd.acc
    ensures Tables(Create(nd, newId, origin, typ))
  {
    hide Entry;
    var nd1 := Create(nd, newId, origin, typ);
    forall n | n in nd1.sw.msgs
      ensures Entry(nd1, n)
    {
      CreateEntry(nd, newId, origin, typ, n);
    }
    NotListed(nd, newId);
    forall k | k in nd1.sw.idmap
      ensures k > 0 && nd1.sw.idmap[k] in nd1.sw.msgs && nd1.sw.msgs[nd1.sw.idmap[k]].imsgid == k
    {
      assert k != origin ==> nd1.sw.idmap[k] == nd.sw.idmap[k] != newId;
    }
  }

  lemma CreateEnds(nd: Node, newId: nat, origin: nat, typ: int, h: int)
    requires Tables(nd) && Fresh(nd, newId) && origin > 0 && origin !in nd.acc
    ensures var nd1 := Create(nd, newId, origin, typ);
      && StampOf(nd1, newId) == origin
      && EndOf(nd1, newId) == C.NotYetEnd(origin).(stage := C.Live(MsgCore.Fresh(newId, origin, typ)))
      && (h != origin ==> Known(nd1, h) == Known(nd, h) && EndAt(nd1, h) == EndAt(nd, h))
      && (Known(nd, h) ==> Known(nd1, h))
  {
    NotListed(nd, newId);
    hide Entry;
  }

  lemma CreateView(s: System, newId: nat, p: Packet, h: int)
    requires Inv(s) && Fresh(s.a, newId) && p.msgid < 0 && !Known(s.a, -p.msgid)
    ensures var s0 := s.(a := Create(s.a, newId, -p.msgid, p.typ));
      && Tables(s0.a)
      && Active(s0, h) == Active(s, h)
      && (h != -p.msgid ==> View(s0, h) == View(s, h))
      && View(s0, -p.msgid) ==
           View(s, -p.msgid).(a := C.NotYetEnd(-p.msgid).(stage := C.Live(MsgCore.Fresh(newId, -p.msgid, p.typ))))
  {
    var origin := -p.msgid;
    assert origin !in s.a.acc;
    CreateTables(s.a, newId, origin, p.typ);
    CreateEnds(s.a, newId, origin, p.typ, h);
    CreateEnds(s.a, newId, origin, p.typ, origin);
    assert Known(Create(s.a, newId, origin, p.typ), origin);
    hide Inv, Tables, Sel, EndOf;
  }

  lemma CreateStep(c: C.Conv, p: Packet, newId: nat)
    requires c.a == C.NotYetEnd(-p.msgid) && p.msgid < 0 && c.ba != [] && c.ba[0] == C.Pack(p)
    requires C.Enabled(c, C.Act.Recv(newId)) && C.Safe(c, C.Act.Recv(newId))
    ensures var m := MsgCore.Fresh(newId, -p.msgid, p.typ);
      var a0 := C.NotYetEnd(-p.msgid).(stage := C.Live(m));
      C.Step(c, C.Act.Recv(newId)) == Absorbed(c.(a := a0), RecvPack(m, p), C.Absorb(a0, RecvPack(m, p)), true)
  {
    hide RecvPack;
  }

  lemma CreateRouted(s: System, newId: nat, p: Packet)
    requires Inv(s) && Fresh(s.a, newId) && p.msgid < 0 && !Known(s.a, -p.msgid) && Known(s.b, p.msgid)
    ensures var nd := Create(s.a, newId, -p.msgid, p.typ); Routed(nd, s.ab, s.b) && Routed(s.b, s.ba, nd)
  {
    assert -p.msgid !in s.a.acc;
    forall h
      ensures Known(s.a, h) ==> Known(Create(s.a, newId, -p.msgid, p.typ), h)
    {
      CreateEnds(s.a, newId, -p.msgid, p.typ, h);
    }
    hide Tables, Known, C.Inv, View;
  }

  lemma NewFrom(c: C.Conv, p: Packet, newId: nat)
    requires C.Inv(c) && c.ba != [] && c.ba[0] == C.Pack(p)
    requires C.Enabled(c, C.Act.Recv(newId)) && C.Safe(c, C.Act.Recv(newId))
    requires c.a.stage.Live? ==> c.a.stage.m.discon
    ensures c.a.stage.NotYet? && p.msgid < 0
  {
    hide C.Inv;
  }

  lemma EndNotYet(nd: Node, h: int)
    requires EndAt(nd, h).stage.NotYet?
    ensures !Known(nd, h) && EndAt(nd, h) == C.NotYetEnd(h)
  {
  }

  lemma HeadKnown(s: System)
    requires Inv(s) && s.ba != []
    ensures Known(s.b, Key(s.ba[0]))
  {
    assert s.ba[0] in s.ba + s.b.sw.resps;
    hide Tables, C.Inv, View, Known;
  }

  lemma NotFound(s: System, h: int)
    requires Inv(s) && Active(s, h) && Lookup(s.a.sw, -h) == None
    ensures var x := EndAt(s.a, h); x.stage.Live? ==> x.stage.m.discon
  {
    hide Inv, Active, EndAt, Lookup;
    LookupFinds(s, h);
  }

  lemma ViewEnd(s: System, h: int, f: Frame, p: Packet)
    ensures View(s, h).a == EndAt(s.a, h)
    ensures f == Pack(p) ==> Key(f) == p.msgid && Bare(f) == C.Pack(p)
  {
    hide Sel, EndAt;
  }

  lemma RecvNewEnd(s: System, newId: nat, p: Packet)
    requires Inv(s) && Enabled(s, Recv(newId)) && Lookup(s.a.sw, p.msgid) == None && s.ba != [] && s.ba[0] == Pack(p)
    ensures EndAt(s.a, -p.msgid).stage.NotYet? && p.msgid < 0
  {
    hide *;
    ViewEnd(s, -p.msgid, s.ba[0], p);
    HeadActive(s);
    NotFound(s, -p.msgid);
    RecvEnabled(s, newId);
    NewFrom(View(s, -p.msgid), p, newId);
  }

  /** The frame opens a message here. */
  lemma RecvNewFacts(s: System, newId: nat, p: Packet)
    requires Inv(s) && Enabled(s, Recv(newId)) && Lookup(s.a.sw, p.msgid) == None && s.ba != [] && s.ba[0] == Pack(p)
    ensures Unborn(s, newId, p)
    ensures EndAt(s.a, -p.msgid) == C.NotYetEnd(-p.msgid)
  {
    assert Fresh(s.a, newId);
    hide Inv, Enabled, EndAt, Known, Lookup, Fresh, C.NotYetEnd;
    HeadKnown(s);
    RecvNewEnd(s, newId, p);
    EndNotYet(s.a, -p.msgid);
  }

  function NewMsg(newId: nat, p: Packet): Msg
    requires p.msgid < 0
  {
    MsgCore.Fresh(newId, -p.msgid, p.typ)
  }

  /** The system after the message was created and before the packet is put into it. */
  function Born(s: System, newId: nat, p: Packet): System
    requires p.msgid < 0
  {
    s.(a := Create(s.a, newId, -p.msgid, p.typ))
  }

  predicate Unborn(s: System, newId: nat, p: Packet) {
    p.msgid < 0 && !Known(s.a, -p.msgid) && Known(s.b, p.msgid) && Fresh(s.a, newId) && s.ba != [] && s.ba[0] == Pack(p)
  }

  lemma NewReady(newId: nat, p: Packet)
    requires p.msgid < 0 && newId > 0
    ensures Conforms(NewMsg(newId, p), RecvPack(NewMsg(newId, p), p))
  {
    RecvPackConforms(NewMsg(newId, p), -p.msgid, p);
  }

  lemma BornReady(s: System, newId: nat, p: Packet)
    requires Inv(s) && Unborn(s, newId, p) && -p.msgid !in s.a.acc
    ensures var s0 := Born(s, newId, p); var w := RecvPack(NewMsg(newId, p), p);
      && Tables(s0.a) && Ready(s0.a, newId, w) && StampOf(s0.a, newId) == -p.msgid
      && Routed(s0.a, s0.ab, s0.b) && Routed(s0.b, s0.ba, s0.a)
      && EndOf(s0.a, newId) == C.NotYetEnd(-p.msgid).(stage := C.Live(NewMsg(newId, p)))
  {
    hide RecvPack, Sel, C.Inv, Routed, Tables, Known, EndOf, StampOf, Conforms, View;
    NewReady(newId, p);
    CreateRouted(s, newId, p);
    CreateTables(s.a, newId, -p.msgid, p.typ);
    CreateEnds(s.a, newId, -p.msgid, p.typ, 0);
  }

  lemma NotAccepted(s: System, k: nat)
    requires Inv(s) && k > 0 && !Known(s.a, k)
    ensures k !in s.a.acc
  {
    hide Routed, C.Inv, View;
  }

  /** What the packet that creates the message makes of it. */
  function NewEnd(newId: nat, p: Packet): C.End
    requires p.msgid < 0
  {
    var m := NewMsg(newId, p);
    C.Absorb(C.NotYetEnd(-p.msgid).(stage := C.Live(m)), RecvPack(m, p))
  }

  lemma NewStep(s: System, newId: nat, p: Packet)
    requires Enabled(s, Recv(newId)) && Safe(s, Recv(newId)) && s.ba[0] == Pack(p) && Lookup(s.a.sw, p.msgid) == None
    requires p.msgid < 0
    requires EndOf(Born(s, newId, p).a, newId) == C.NotYetEnd(-p.msgid).(stage := C.Live(NewMsg(newId, p)))
    ensures var s0 := Born(s, newId, p);
      && Step(s, Recv(newId)) ==
        s0.(a := Update(s0.a, newId, RecvPack(NewMsg(newId, p), p), NewEnd(newId, p)), ba := s.ba[1..])
  {
    hide RecvPack, Update, C.Absorb;
  }

  lemma NewOthers(s: System, s1: System, newId: nat, p: Packet, h: int)
    requires Inv(s) && Unborn(s, newId, p) && h != -p.msgid
    requires var s0 := Born(s, newId, p); var w := RecvPack(NewMsg(newId, p), p);
      && Tables(s0.a) && Ready(s0.a, newId, w) && StampOf(s0.a, newId) == -p.msgid
      && s1 == s0.(a := Update(s0.a, newId, w, NewEnd(newId, p)), ba := s.ba[1..])
    ensures Active(s1, h) == Active(s, h) && View(s1, h) == View(s, h)
  {
    hide Inv, RecvPack, Tables, View, Active, Update, Known, NewEnd, NewMsg, Conforms, StampOf, Create;
    CreateView(s, newId, p, h);
    UpdatedOthers(Born(s, newId, p), s1, newId, RecvPack(NewMsg(newId, p), p), NewEnd(newId, p), true, h);
  }

  lemma NewView(s: System, s1: System, newId: nat, p: Packet)
    requires Inv(s) && Unborn(s, newId, p)
    requires var s0 := Born(s, newId, p); var w := RecvPack(NewMsg(newId, p), p);
      && Tables(s0.a) && Ready(s0.a, newId, w) && StampOf(s0.a, newId) == -p.msgid
      && s1 == s0.(a := Update(s0.a, newId, w, NewEnd(newId, p)), ba := s.ba[1..])
    requires var c := View(s, -p.msgid);
      && c.a == C.NotYetEnd(-p.msgid) && c.ba != [] && c.ba[0] == C.Pack(p)
      && C.Enabled(c, C.Act.Recv(newId)) && C.Safe(c, C.Act.Recv(newId))
    ensures View(s1, -p.msgid) == C.Step(View(s, -p.msgid), C.Act.Recv(newId))
  {
    hide Inv, RecvPack, Tables, View, Active, Update, Known, Conforms, StampOf, Create, C.Step, C.Enabled, C.Safe, C.Absorb;
    CreateView(s, newId, p, 0);
    CreateStep(View(s, -p.msgid), p, newId);
    UpdatedView(Born(s, newId, p), s1, newId, RecvPack(NewMsg(newId, p), p), NewEnd(newId, p), true);
  }

  lemma NewTables(s: System, s1: System, newId: nat, p: Packet)
    requires Inv(s) && Unborn(s, newId, p)
    requires var s0 := Born(s, newId, p); var w := RecvPack(NewMsg(newId, p), p);
      && s1 == s0.(a := Update(s0.a, newId, w, NewEnd(newId, p)), ba := s.ba[1..])
      && Tables(s0.a) && Ready(s0.a, newId, w)
      && Routed(s0.a, s0.ab, s0.b) && Routed(s0.b, s0.ba, s0.a)
    ensures Tables(s1.a) && Routed(s1.a, s1.ab, s1.b) && Routed(s1.b, s1.ba, s1.a)
  {
    hide Inv, Tables, RecvPack, Update, Known, Create, NewEnd, NewMsg, Conforms;
    var s0 := Born(s, newId, p);
    var w := RecvPack(NewMsg(newId, p), p);
    UpdateTables(s0.a, newId, w, NewEnd(newId, p));
    UpdateRouted(s0, newId, w, NewEnd(newId, p), s0.ab);
    assert forall f | f in s1.ba + s1.b.sw.resps :: f in s0.ba + s0.b.sw.resps;
  }

  lemma RecvNewKeeps(s: System, newId: nat, p: Packet)
    requires Inv(s) && Enabled(s, Recv(newId)) && Safe(s, Recv(newId))
    requires Lookup(s.a.sw, p.msgid) == None && s.ba != [] && s.ba[0] == Pack(p)
    ensures Inv(Step(s, Recv(newId)))
  {
    hide Inv, C.Inv, C.Step, C.Enabled, C.Safe, Guarded, Possible, Safe, Step, View, Lookup, Known, RecvPack, Create, Update, Tables, Routed,
      Conforms, NewEnd, NewMsg, Active, StampOf, EndOf, Key, Bare, EndAt, C.NotYetEnd;
    RecvNewFacts(s, newId, p);
    assert -p.msgid !in s.a.acc by { NotAccepted(s, -p.msgid); }
    BornReady(s, newId, p);
    NewStep(s, newId, p);
    var s1 := Step(s, Recv(newId));
    NewTables(s, s1, newId, p);
    RecvEnabled(s, newId);
    HeadActive(s);
    ViewEnd(s, -p.msgid, s.ba[0], p);
    NewView(s, s1, newId, p);
    forall h | Active(s1, h) && h != -p.msgid
      ensures Active(s, h) && View(s1, h) == View(s, h)
    {
      NewOthers(s, s1, newId, p, h);
    }
    OneChanged(s, s1, -p.msgid);
  }

  // ---------- retiring a conversation ----------

  lemma {:induction false} SelEmpty(fs: seq<Frame>, h: int)
    requires Sel(fs, h) == []
    ensures forall f | f in fs :: Key(f) != h
  {
    if fs != [] { SelEmpty(fs[1..], h); }
  }

  /** What is forgotten is one end and nothing else. */
  lemma ForgottenEnds(nd: Node, h: int, h1: int)
    requires Tables(nd)
    ensures !Known(Forgotten(nd, h), h)
    ensures h1 != h ==> Known(Forgotten(nd, h), h1) == Known(nd, h1) && EndAt(Forgotten(nd, h), h1) == EndAt(nd, h1)
    ensures forall k | k in Forgotten(nd, h).acc :: k in nd.acc && k != h
  {
    hide Entry;
    if Known(nd, h) { StampNames(nd, IdOf(nd, h), h1); }
  }

  lemma ForgottenTables(nd: Node, h: int)
    requires Tables(nd)
    requires Known(nd, h) ==> IdOf(nd, h) !in nd.sw.msgs && IdOf(nd, h) !in nd.sw.pend
    ensures Tables(Forgotten(nd, h))
  {
    hide Entry;
    var nd1 := Forgotten(nd, h);
    forall n | n in nd1.sw.msgs ensures Entry(nd1, n) { ForgottenEntry(nd, h, n); }
  }

  lemma ForgottenEntry(nd: Node, h: int, n: nat)
    requires Entry(nd, n) && (Known(nd, h) ==> IdOf(nd, h) != n)
    ensures Entry(Forgotten(nd, h), n)
  {
  }

  lemma ForgottenRouted(nd: Node, out: seq<Frame>, peer: Node, h: int)
    requires Tables(nd) && Tables(peer) && Routed(nd, out, peer) && Sel(out + nd.sw.resps, h) == []
    ensures Routed(Forgotten(nd, h), out, Forgotten(peer, -h))
  {
    hide Tables, Known, Forgotten;
    SelEmpty(out + nd.sw.resps, h);
    ForgottenEnds(nd, h, h);
    ForgottenSwitch(nd, h);
    forall f | f in out + nd.sw.resps ensures Known(Forgotten(nd, h), Key(f)) { ForgottenEnds(nd, h, Key(f)); }
    forall k | k in Forgotten(nd, h).acc ensures Known(Forgotten(peer, -h), -k) { ForgottenEnds(peer, -h, -k); }
  }

  lemma ForgottenSwitch(nd: Node, h: int)
    ensures Forgotten(nd, h).sw == nd.sw
  {
  }

  /** A message that is gone is not on the send list. */
  lemma GoneUnlisted(s: System, h: int)
    requires Inv(s) && Active(s, h)
    ensures Known(s.a, h) && IdOf(s.a, h) !in s.a.sw.msgs ==> IdOf(s.a, h) !in s.a.sw.pend
    ensures Known(s.b, -h) && IdOf(s.b, -h) !in s.b.sw.msgs ==> IdOf(s.b, -h) !in s.b.sw.pend
  {
    assert C.Inv(View(s, h));
    GoneIdle(View(s, h));
    hide Inv, C.Inv, Sel;
  }

  lemma GoneIdle(c: C.Conv)
    requires C.Inv(c)
    ensures (c.a.stage.Gone? ==> c.a.sched == 0) && (c.b.stage.Gone? ==> c.b.sched == 0)
  {
    hide C.Flow, MsgOk;
  }

  lemma RetireStep(s: System, n: nat)
    requires Enabled(s, Retire(n))
    ensures Over(s, n) && Safe(s, Retire(n)) && n in s.a.past
    ensures var h := StampOf(s.a, n); Step(s, Retire(n)) == s.(a := Forgotten(s.a, h), b := Forgotten(s.b, -h))
  {
    hide Forgotten, Known, IdOf, Sel, StampOf;
  }

  lemma OverIs(s: System, n: nat)
    requires Tables(s.a) && Over(s, n)
    ensures var h := StampOf(s.a, n);
      && (Known(s.a, h) ==> IdOf(s.a, h) !in s.a.sw.msgs) && (Known(s.b, -h) ==> IdOf(s.b, -h) !in s.b.sw.msgs)
      && Sel(s.ab + s.a.sw.resps, h) == [] && Sel(s.ba + s.b.sw.resps, -h) == []
  {
    hide Sel, Entry;
    StampNames(s.a, n, StampOf(s.a, n));
  }

  lemma RetireOthers(s: System, h: int, h1: int)
    requires Inv(s) && Active(s.(a := Forgotten(s.a, h), b := Forgotten(s.b, -h)), h1)
    ensures h1 != h && Active(s, h1) && View(s.(a := Forgotten(s.a, h), b := Forgotten(s.b, -h)), h1) == View(s, h1)
  {
    hide Forgotten, Sel, Known, EndAt, Tables, C.Inv, Routed;
    ForgottenEnds(s.a, h, h1);
    ForgottenEnds(s.b, -h, -h1);
    ForgottenSwitch(s.a, h);
    ForgottenSwitch(s.b, -h);
  }

  lemma RetireKeeps(s: System, n: nat)
    requires Inv(s) && Enabled(s, Retire(n))
    ensures Safe(s, Retire(n)) && Inv(Step(s, Retire(n)))
  {
    hide Forgotten, Sel, Known, EndAt, Tables, C.Inv, Routed, View, Active, Possible, Guarded, Safe, Step, StampOf, Over;
    RetireStep(s, n);
    OverIs(s, n);
    ActiveStamp(s, n);
    var h := StampOf(s.a, n);
    GoneUnlisted(s, h);
    ForgottenTables(s.a, h);
    ForgottenTables(s.b, -h);
    ForgottenRouted(s.a, s.ab, s.b, h);
    ForgottenRouted(s.b, s.ba, s.a, -h);
    var s1 := s.(a := Forgotten(s.a, h), b := Forgotten(s.b, -h));
    forall h1 | Active(s1, h1) ensures C.Inv(View(s1, h1)) { RetireOthers(s, h, h1); }
  }

  // ---------- every step ----------

  lemma SendSafe(s: System)
    requires Inv(s) && s.a.sw.armed
    ensures Safe(s, Send)
  {
    if s.a.sw.resps == [] { SendPackSafe(s); }
    hide C.Inv, Sel, View;
  }

  /** Every step of either switch that can happen is safe, and keeps the invariant. */
  lemma StepKeeps(s: System, mv: Move)
    requires Inv(s) && Enabled(s, mv)
    ensures Safe(s, mv) && Inv(Step(s, mv))
  {
    match mv
    case Retire(n) => RetireKeeps(s, n);
    case Open(id, typ) => OpenKeeps(s, id, typ);
    case User(n, act) => UserStepKeeps(s, n, act);
    case Send =>
      SendSafe(s);
      if s.a.sw.resps != [] { SendRespKeeps(s); } else { SendPackKeeps(s); }
    case Recv(newId) =>
      RecvSafe(s, newId);
      match Lookup(s.a.sw, Key(s.ba[0]))
      case Some(n) => RecvFoundKeeps(s, newId, n);
      case None =>
        if s.ba[0].Pack? { RecvNewKeeps(s, newId, s.ba[0].p); } else { RecvDroppedKeeps(s, newId); }
  }
}
