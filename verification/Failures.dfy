/** Runs in which the code does not keep its promises, step by step from the start. All but the last two lead
    to a reachable state, take a step that `Guarded` leaves out, and go on to one that the code cannot take: an
    assertion fails, or a queue is empty. In the last two every step is as it should be, and bytes are lost or
    the end of a message is reported too early. */
module Failures {
  import opened MsgCore
  import opened MsgFacts
  import opened TwoSwitches
  import C = Conversation
  import R = Runs

  lemma Go(t: System, first: bool, mv: Move, t1: System)
    requires R.Reachable(t)
    requires var u := R.Side(t, first); Enabled(u, mv) && Safe(u, mv) && Step(u, mv) == R.Side(t1, first)
    ensures R.Reachable(t1)
  {
    var run :| R.Reaches(START, run, t);
    R.Extend(START, run, t, R.Event(first, mv));
    assert R.Side(R.Side(t1, first), first) == t1;
  }

  lemma GoStart()
    ensures R.Reachable(START)
  {
    assert R.Reaches(START, [], START);
  }

  /** A run that goes on whatever the steps break, as long as no assertion of the code fails on the way. */
  ghost predicate Plays(s: System, run: seq<R.Event>, t: System)
    decreases |run|
  {
    if run == [] then s == t
    else
      var s0 := R.Side(s, run[0].first);
      Possible(s0, run[0].mv) && Safe(s0, run[0].mv) &&
      Plays(R.Side(Step(s0, run[0].mv), run[0].first), run[1..], t)
  }

  lemma Play(s: System, first: bool, mv: Move, s1: System, rest: seq<R.Event>, t: System)
    requires var u := R.Side(s, first); Possible(u, mv) && Safe(u, mv) && Step(u, mv) == R.Side(s1, first)
    requires Plays(s1, rest, t)
    ensures Plays(s, [R.Event(first, mv)] + rest, t)
  {
    hide Possible, Safe, Step;
    var run := [R.Event(first, mv)] + rest;
    assert run[1..] == rest;
    assert R.Side(R.Side(s1, first), first) == s1;
  }

  lemma PlayLast(s: System, first: bool, mv: Move, t: System)
    requires var u := R.Side(s, first); Possible(u, mv) && Safe(u, mv) && Step(u, mv) == R.Side(t, first)
    ensures Plays(s, [R.Event(first, mv)], t)
  {
    hide Possible, Safe, Step;
    assert [R.Event(first, mv)] + [] == [R.Event(first, mv)];
    Play(s, first, mv, t, [], t);
  }

  // ---------- steps of a switch that has one message ----------

  /** A switch with message 1, opened here or accepted from the peer's 1. */
  function One(accepted: bool, m: Msg, past: Past, resps: seq<Frame>, pend: seq<nat>): Node {
    Node(Switch(map[1 := m], if m.imsgid != 0 then map[1 := 1] else map[], resps, pend, resps != [] || pend != []),
         map[1 := past], if accepted then map[1 := 1] else map[])
  }

  predicate Plausible(m: Msg, past: Past) {
    m.msgid == 1 && (m.imsgid == 0 || m.imsgid == 1) && (past.origin == 0 || past.origin == 1)
  }

  /** What the work of an operation does to that switch. */
  lemma WorkOn(accepted: bool, m: Msg, past: Past, resps: seq<Frame>, pend: seq<nat>, w: Work, x: C.End)
    requires Plausible(m, past) && !w.freed && !w.drop && (w.m.imsgid == m.imsgid || w.m.imsgid == 0)
    ensures Update(One(accepted, m, past, resps, pend), 1, w, x)
      == One(accepted, w.m, Past(past.origin, x.written, x.delivered, x.discons, x.gotDiscon, x.eof),
             resps + Stamps(m.Stamp(), w.emit), pend + Repeat(1, w.push))
  {
    var nd := One(accepted, m, past, resps, pend);
    var sw := Apply(nd.sw, 1, w);
    assert sw.msgs == map[1 := w.m];
    assert sw.idmap == if w.m.imsgid != 0 then map[1 := 1] else map[];
    if w.push == 0 { assert pend + Repeat(1, 0) == pend; }
    if w.emit == [] { assert resps + Stamps(m.Stamp(), []) == resps; }
    assert nd.past[1 := Past(past.origin, x.written, x.delivered, x.discons, x.gotDiscon, x.eof)]
      == map[1 := Past(past.origin, x.written, x.delivered, x.discons, x.gotDiscon, x.eof)];
  }

  lemma UserOn(s: System, accepted: bool, m: Msg, past: Past, resps: seq<Frame>, pend: seq<nat>, act: C.Act, w: Work)
    requires s.a == One(accepted, m, past, resps, pend) && Plausible(m, past) && (act.Write? || act.Flush? || act.Close?)
    requires m.incomplete.Some? ==> |m.incomplete.value.data| <= PACK_DATA_SIZE
    requires (m.availRead ==> m.readQ != []) && UserWork(m, act) == w && !w.freed && !w.drop && w.m.imsgid == m.imsgid
    ensures Possible(s, User(1, act)) && Safe(s, User(1, act))
    ensures Step(s, User(1, act)) == s.(a := One(accepted, w.m,
      past.(written := past.written + if act.Write? && MsgCore.Write(m, act.data).1.Count? then act.data else [],
            discons := past.discons + CountDiscon(w.emit)),
      resps + Stamps(m.Stamp(), w.emit), pend + Repeat(1, w.push)))
  {
    hide MsgCore.Write, MsgCore.Flush, MsgCore.Close, CountDiscon, Apply, Stamps, Repeat, Update;
    var x := C.Step(Alone(s.a, 1), act).a;
    WorkOn(accepted, m, past, resps, pend, w, x);
    var written := past.written + if act.Write? && MsgCore.Write(m, act.data).1.Count? then act.data else [];
    assert past.written + [] == past.written;
    assert x == C.Absorb(EndOf(s.a, 1), w).(written := written);
    assert Step(s, User(1, act)) == s.(a := Update(s.a, 1, w, x));
  }

  lemma SendRespOn(s: System, accepted: bool, m: Msg, past: Past, resps: seq<Frame>, pend: seq<nat>)
    requires s.a == One(accepted, m, past, resps, pend) && resps != []
    ensures Possible(s, Send) && Safe(s, Send)
    ensures Step(s, Send) == s.(a := One(accepted, m, past, resps[1..], pend), ab := s.ab + [resps[0]])
  {
  }

  lemma SendPackOn(s: System, accepted: bool, m: Msg, past: Past, w: Work)
    requires s.a == One(accepted, m, past, [], [1]) && Plausible(m, past) && m.writQ != []
    requires w == PopWrit(Start(m)) && !w.freed && !w.drop && w.m.imsgid == m.imsgid && w.emit == [] && w.push == 0
    ensures Possible(s, Send) && Safe(s, Send)
    ensures Step(s, Send) == s.(a := One(accepted, w.m, past, [], []), ab := s.ab + [Pack(m.writQ[0])])
  {
    hide PopWrit, Update, Unlist, C.Absorb;
    WorkOn(accepted, m, past, [], [1], w, C.Absorb(EndOf(s.a, 1), w));
    AbsorbPast(EndOf(s.a, 1), w);
    UnlistOne(accepted, w.m, past);
  }

  lemma AbsorbPast(x: C.End, w: Work)
    requires w.emit == []
    ensures var y := C.Absorb(x, w);
      y.written == x.written && y.delivered == x.delivered && y.discons == x.discons && y.gotDiscon == x.gotDiscon && y.eof == x.eof
  {
  }

  lemma UnlistOne(accepted: bool, m: Msg, past: Past)
    ensures Unlist(One(accepted, m, past, [], [1] + [])) == One(accepted, m, past, [], [])
    ensures Stamps(m.Stamp(), []) == [] && Repeat(1, 0) == []
    ensures [] + Stamps(m.Stamp(), []) == [] && [1] + Repeat(1, 0) == [1] + []
  {
    assert [1][1..] == [];
  }

  lemma RecvOn(s: System, accepted: bool, m: Msg, past: Past, resps: seq<Frame>, pend: seq<nat>, w: Work)
    requires s.a == One(accepted, m, past, resps, pend) && Plausible(m, past) && s.ba != [] && Lookup(s.a.sw, Key(s.ba[0])) == Some(1)
    requires !m.discon && !w.freed && !w.drop && (w.m.imsgid == m.imsgid || w.m.imsgid == 0)
    requires match s.ba[0]
      case Pack(p) => w == RecvPack(m, p)
      case Resp(_, st) => RespExpected(m, st) && (m.availWrit ==> m.writQ != []) && w == RecvResp(m, st)
    ensures Possible(s, Recv(1)) && Safe(s, Recv(1))
    ensures Step(s, Recv(1)) == s.(ba := s.ba[1..], a := One(accepted, w.m,
      past.(discons := past.discons + CountDiscon(w.emit), gotDiscon := past.gotDiscon || (s.ba[0].Resp? && s.ba[0].st.Discon?)),
      resps + Stamps(m.Stamp(), w.emit), pend + Repeat(1, w.push)))
  {
    hide RecvPack, RecvResp, CountDiscon, Apply, Stamps, Repeat, RespExpected;
    var x := C.Absorb(EndOf(s.a, 1), w);
    WorkOn(accepted, m, past, resps, pend, w, x.(gotDiscon := x.gotDiscon || (s.ba[0].Resp? && s.ba[0].st.Discon?)));
  }

  /** That switch after its message was freed. */
  function Left(accepted: bool, past: Past, resps: seq<Frame>): Node {
    Node(Switch(map[], map[], resps, [], resps != []), map[1 := past], if accepted then map[1 := 1] else map[])
  }

  lemma FreedOn(m: Msg, past: Past, resps: seq<Frame>, w: Work, x: C.End)
    requires Plausible(m, past) && m.imsgid == 0 && w.freed && !w.drop && w.emit == [] && w.push == 0
    ensures Update(One(false, m, past, resps, []), 1, w, x)
      == Left(false, Past(past.origin, x.written, x.delivered, x.discons, x.gotDiscon, x.eof), resps)
  {
    var nd := One(false, m, past, resps, []);
    var sw := Apply(nd.sw, 1, w);
    assert sw.msgs == map[] && sw.idmap == map[];
    assert resps + Stamps(m.Stamp(), []) == resps;
    assert nd.past[1 := Past(past.origin, x.written, x.delivered, x.discons, x.gotDiscon, x.eof)]
      == map[1 := Past(past.origin, x.written, x.delivered, x.discons, x.gotDiscon, x.eof)];
  }

  /** The answer to our disconnect frees the message. */
  lemma AnswerOn(s: System, m: Msg, past: Past, resps: seq<Frame>)
    requires s.a == One(false, m, past, resps, []) && Plausible(m, past) && m.imsgid == 0 && !m.writing && !m.discon
    requires m.sentDiscon && (m.availWrit ==> m.writQ != []) && s.ba == [Resp(1, Discon)]
    ensures Possible(s, Recv(1)) && Safe(s, Recv(1))
    ensures Step(s, Recv(1)) == s.(ba := [], a := Left(false, past.(gotDiscon := true), resps))
  {
    hide Apply;
    var w := RecvResp(m, Discon);
    FreedOn(m, past, resps, w, C.Absorb(EndOf(s.a, 1), w).(gotDiscon := true));
  }

  /** Closing a disconnected message frees it. */
  lemma CloseOn(s: System, m: Msg, past: Past, resps: seq<Frame>)
    requires s.a == One(false, m, past, resps, []) && Plausible(m, past) && m.imsgid == 0 && !m.writing && !m.closed && m.discon
    requires m.availRead ==> m.readQ != []
    ensures Possible(s, User(1, C.Close)) && Safe(s, User(1, C.Close)) && Guarded(s, User(1, C.Close))
    ensures Step(s, User(1, C.Close)) == s.(a := Left(false, past, resps))
  {
    hide Apply;
    var w := MsgCore.Close(m).0;
    FreedOn(m, past, resps, w, C.Absorb(EndOf(s.a, 1), w));
  }

  // ---------- the same as steps of a run ----------

  /** What a step of message 1 adds to the history, the responses and the send list. */
  predicate Adds(m: Msg, past: Past, resps: seq<Frame>, pend: seq<nat>, w: Work, past1: Past, resps1: seq<Frame>, pend1: seq<nat>) {
    && past1.origin == past.origin && past1.delivered == past.delivered && past1.eof == past.eof
    && past1.discons == past.discons + CountDiscon(w.emit)
    && resps1 == resps + Stamps(m.Stamp(), w.emit) && pend1 == pend + Repeat(1, w.push)
  }

  lemma Lists()
    ensures Repeat(1, 0) == [] && Repeat(1, 1) == [1] && Stamps(1, []) == [] && Stamps(-1, []) == []
    ensures Stamps(1, [Ok]) == [Resp(1, Ok)] && Stamps(1, [Discon]) == [Resp(1, Discon)] && Stamps(-1, [Discon]) == [Resp(-1, Discon)]
    ensures CountDiscon([]) == 0 && CountDiscon([Ok]) == 0 && CountDiscon([Discon]) == 1 && CountDiscon([Discon, Ok]) == 1
    ensures Stamps(1, [Discon, Ok]) == [Resp(1, Discon), Resp(1, Ok)]
  {
    assert [Discon, Ok][1..] == [Ok];
  }

  lemma AddsNothing(m: Msg, past: Past, resps: seq<Frame>, pend: seq<nat>, w: Work, past1: Past)
    requires w.emit == [] && w.push == 0 && past1.(written := past.written, gotDiscon := past.gotDiscon) == past
    ensures Adds(m, past, resps, pend, w, past1, resps, pend)
  {
    Lists();
    assert resps + [] == resps && pend + [] == pend;
  }

  lemma AddsAnswer(m: Msg, past: Past, pend: seq<nat>, w: Work, st: Status, past1: Past)
    requires w.emit == [st] && w.push == 0 && past1.(written := past.written, gotDiscon := past.gotDiscon, discons := past.discons) == past
    requires past1.discons == past.discons + Bit(st.Discon?)
    ensures Adds(m, past, [], pend, w, past1, [Resp(m.Stamp(), st)], pend)
  {
    Lists();
    assert [st][1..] == [];
    assert [] + [Resp(m.Stamp(), st)] == [Resp(m.Stamp(), st)] && pend + [] == pend;
  }

  lemma AddsTwo(m: Msg, past: Past, pend: seq<nat>, w: Work, past1: Past)
    requires w.emit == [Discon, Ok] && w.push == 0 && past1 == past.(discons := past.discons + 1)
    ensures Adds(m, past, [], pend, w, past1, [Resp(m.Stamp(), Discon), Resp(m.Stamp(), Ok)], pend)
  {
    Lists();
    assert [Discon, Ok][1..] == [Ok] && [Ok][1..] == [];
    assert Stamps(m.Stamp(), [Ok]) == [Resp(m.Stamp(), Ok)];
    assert [] + Stamps(m.Stamp(), [Discon, Ok]) == [Resp(m.Stamp(), Discon), Resp(m.Stamp(), Ok)] && pend + [] == pend;
  }

  lemma AddsTurn(m: Msg, past: Past, resps: seq<Frame>, w: Work)
    requires w.emit == [] && w.push == 1
    ensures Adds(m, past, resps, [], w, past, resps, [1])
  {
    Lists();
    assert resps + [] == resps && [] + [1] == [1];
  }

  /** The bytes the step adds to those accepted. */
  function Accepted(m: Msg, act: C.Act): Bytes
    requires m.incomplete.Some? ==> |m.incomplete.value.data| <= PACK_DATA_SIZE
  {
    if act.Write? && MsgCore.Write(m, act.data).1.Count? then act.data else []
  }

  lemma UserIs(s: System, accepted: bool, m: Msg, past: Past, resps: seq<Frame>, pend: seq<nat>, act: C.Act, w: Work,
               past1: Past, resps1: seq<Frame>, pend1: seq<nat>)
    requires s.a == One(accepted, m, past, resps, pend) && Plausible(m, past) && (act.Write? || act.Flush? || act.Close?)
    requires m.incomplete.Some? ==> |m.incomplete.value.data| <= PACK_DATA_SIZE
    requires (m.availRead ==> m.readQ != []) && UserWork(m, act) == w && !w.freed && !w.drop && w.m.imsgid == m.imsgid
    requires Adds(m, past, resps, pend, w, past1, resps1, pend1)
    requires past1.written == past.written + Accepted(m, act) && past1.gotDiscon == past.gotDiscon
    ensures Possible(s, User(1, act)) && Safe(s, User(1, act))
    ensures Step(s, User(1, act)) == s.(a := One(accepted, w.m, past1, resps1, pend1))
  {
    hide UserWork, MsgCore.Write, CountDiscon, Stamps, Repeat, Step, Safe, Plausible, One;
    UserOn(s, accepted, m, past, resps, pend, act, w);
  }

  lemma DoUser(t: System, first: bool, m: Msg, past: Past, resps: seq<Frame>, pend: seq<nat>, act: C.Act, w: Work,
               past1: Past, resps1: seq<Frame>, pend1: seq<nat>, t1: System)
    requires R.Reachable(t) && Plausible(m, past) && (act.Write? || act.Flush? || act.Close?) && (act.Flush? ==> C.FlushSafe(m))
    requires R.Side(t, first).a == One(!first, m, past, resps, pend)
    requires m.incomplete.Some? ==> |m.incomplete.value.data| <= PACK_DATA_SIZE
    requires (m.availRead ==> m.readQ != []) && UserWork(m, act) == w && !w.freed && !w.drop && w.m.imsgid == m.imsgid
    requires Adds(m, past, resps, pend, w, past1, resps1, pend1)
    requires past1.written == past.written + Accepted(m, act) && past1.gotDiscon == past.gotDiscon
    requires R.Side(t1, first) == R.Side(t, first).(a := One(!first, w.m, past1, resps1, pend1))
    ensures R.Reachable(t1)
  {
    hide R.Reachable, UserWork, MsgCore.Write, Adds, Accepted, Step, Safe, Possible, Plausible, One;
    UserIs(R.Side(t, first), !first, m, past, resps, pend, act, w, past1, resps1, pend1);
    UserGuarded(R.Side(t, first), !first, m, past, resps, pend, act);
    Go(t, first, User(1, act), t1);
  }

  lemma UserGuarded(s: System, accepted: bool, m: Msg, past: Past, resps: seq<Frame>, pend: seq<nat>, act: C.Act)
    requires s.a == One(accepted, m, past, resps, pend) && (act.Flush? ==> C.FlushSafe(m))
    ensures Guarded(s, User(1, act))
  {
  }

  lemma SendRespIs(s: System, accepted: bool, m: Msg, past: Past, f: Frame, resps: seq<Frame>, pend: seq<nat>)
    requires s.a == One(accepted, m, past, [f] + resps, pend) && s.ab == []
    ensures Possible(s, Send) && Safe(s, Send)
    ensures Step(s, Send) == s.(a := One(accepted, m, past, resps, pend), ab := [f])
  {
    hide Step, Safe, One;
    var all := [f] + resps;
    assert all[0] == f && all[1..] == resps && [] + [f] == [f];
    SendRespOn(s, accepted, m, past, all, pend);
  }

  lemma DoSendResp(t: System, first: bool, m: Msg, past: Past, f: Frame, resps: seq<Frame>, pend: seq<nat>, t1: System)
    requires R.Reachable(t) && R.Side(t, first).a == One(!first, m, past, [f] + resps, pend) && R.Side(t, first).ab == []
    requires R.Side(t1, first) == R.Side(t, first).(a := One(!first, m, past, resps, pend), ab := [f])
    ensures R.Reachable(t1)
  {
    hide R.Reachable, Step, Safe, One, Possible;
    SendRespIs(R.Side(t, first), !first, m, past, f, resps, pend);
    Go(t, first, Send, t1);
  }

  lemma DoSendPack(t: System, first: bool, m: Msg, past: Past, w: Work, t1: System)
    requires R.Reachable(t) && R.Side(t, first).a == One(!first, m, past, [], [1]) && Plausible(m, past) && m.writQ != []
    requires w == PopWrit(Start(m)) && !w.freed && !w.drop && w.m.imsgid == m.imsgid && w.emit == [] && w.push == 0
    requires var u := R.Side(t, first); R.Side(t1, first) == u.(a := One(!first, w.m, past, [], []), ab := u.ab + [Pack(m.writQ[0])])
    ensures R.Reachable(t1)
  {
    hide R.Reachable, PopWrit, Step, Safe, Plausible, One;
    SendPackOn(R.Side(t, first), !first, m, past, w);
    Go(t, first, Send, t1);
  }

  /** The id in a frame means message 1. */
  predicate Means(id: int, m: Msg) { id == 1 || (id == -1 && m.imsgid == 1) }

  lemma RecvIs(s: System, accepted: bool, m: Msg, past: Past, resps: seq<Frame>, pend: seq<nat>, w: Work,
               past1: Past, resps1: seq<Frame>, pend1: seq<nat>)
    requires s.a == One(accepted, m, past, resps, pend) && Plausible(m, past) && s.ba != [] && Means(Key(s.ba[0]), m)
    requires !m.discon && !w.freed && !w.drop && (w.m.imsgid == m.imsgid || w.m.imsgid == 0)
    requires match s.ba[0]
      case Pack(p) => w == RecvPack(m, p)
      case Resp(_, st) => RespExpected(m, st) && (m.availWrit ==> m.writQ != []) && w == RecvResp(m, st)
    requires Adds(m, past, resps, pend, w, past1, resps1, pend1) && past1.written == past.written
    requires past1.gotDiscon == (past.gotDiscon || (s.ba[0].Resp? && s.ba[0].st.Discon?))
    ensures Possible(s, Recv(1)) && Safe(s, Recv(1))
    ensures Step(s, Recv(1)) == s.(ba := s.ba[1..], a := One(accepted, w.m, past1, resps1, pend1))
  {
    hide RecvPack, RecvResp, CountDiscon, Stamps, Repeat, RespExpected, Step, Safe, Plausible, One;
    Meant(s.a, accepted, m, past, resps, pend, Key(s.ba[0]));
    RecvOn(s, accepted, m, past, resps, pend, w);
  }

  lemma DoRecv(t: System, first: bool, m: Msg, past: Past, resps: seq<Frame>, pend: seq<nat>, w: Work,
               past1: Past, resps1: seq<Frame>, pend1: seq<nat>, t1: System)
    requires R.Reachable(t) && R.Side(t, first).a == One(!first, m, past, resps, pend) && Plausible(m, past)
    requires var u := R.Side(t, first); u.ba != [] && Means(Key(u.ba[0]), m)
    requires !m.discon && !w.freed && !w.drop && (w.m.imsgid == m.imsgid || w.m.imsgid == 0)
    requires match R.Side(t, first).ba[0]
      case Pack(p) => w == RecvPack(m, p)
      case Resp(_, st) => RespExpected(m, st) && (m.availWrit ==> m.writQ != []) && w == RecvResp(m, st) && (st.Discon? ==> DrainSafe(m))
    requires Adds(m, past, resps, pend, w, past1, resps1, pend1) && past1.written == past.written
    requires var f := R.Side(t, first).ba[0]; past1.gotDiscon == (past.gotDiscon || (f.Resp? && f.st.Discon?))
    requires var u := R.Side(t, first); R.Side(t1, first) == u.(ba := u.ba[1..], a := One(!first, w.m, past1, resps1, pend1))
    ensures R.Reachable(t1)
  {
    hide R.Reachable, RecvPack, RecvResp, Adds, RespExpected, Step, Safe, Possible, Plausible, DrainSafe, One;
    var s := R.Side(t, first);
    Meant(s.a, !first, m, past, resps, pend, Key(s.ba[0]));
    RecvIs(s, !first, m, past, resps, pend, w, past1, resps1, pend1);
    RecvGuarded(s);
    Go(t, first, Recv(1), t1);
  }

  lemma Meant(nd: Node, accepted: bool, m: Msg, past: Past, resps: seq<Frame>, pend: seq<nat>, id: int)
    requires nd == One(accepted, m, past, resps, pend) && Means(id, m)
    ensures 1 in nd.sw.msgs && nd.sw.msgs[1] == m && Lookup(nd.sw, id) == Some(1)
  {
  }

  lemma RecvGuarded(s: System)
    requires s.ba != [] && Lookup(s.a.sw, Key(s.ba[0])) == Some(1) && 1 in s.a.sw.msgs
    requires s.ba[0].Resp? && s.ba[0].st.Discon? ==> DrainSafe(s.a.sw.msgs[1])
    ensures Guarded(s, Recv(1))
  {
    hide DrainSafe, Lookup;
  }

  // ---------- a message is opened, and its first packet arrives ----------

  const P1 := Packet(-1, 0, [7])
  const P2 := Packet(1, 0, [8])
  const OURS := NEW_PAST.(written := [7])
  const THEIRS := NEW_PAST.(origin := 1)

  const A1 := MsgCore.Fresh(1, 0, 0).(connected := true)
  const A2 := A1.(incomplete := Some(P1), nWrit := 1)
  const A3 := A2.(incomplete := None, writQ := [P1], availWrit := true, writing := true)
  const A4 := A3.(writQ := [], availWrit := false, waiting := true, writing := false)
  const B1 := MsgCore.Fresh(1, 1, 0).(nRead := 1, readQ := [P1], availRead := true)

  /** One step each: what the operations make of the message. */
  lemma WorkA()
    ensures UserWork(A1, C.Write([7])) == Start(A2) && MsgCore.Write(A1, [7]).1.Count?
    ensures UserWork(A2, C.Flush) == Start(A3).(push := 1)
    ensures PopWrit(Start(A3)) == Start(A4)
    ensures RecvPack(MsgCore.Fresh(1, 1, 0), P1) == Start(B1).(emit := [Ok])
  {
    NewPacket(A1, 7);
    assert PopWrit(Start(A3)) == Start(A4) by { hide Fill; }
  }

  /** A byte written to a message without a half filled packet opens a new one. */
  lemma NewPacket(m: Msg, b: Byte)
    requires m.incomplete.None? && m.spaceWrit && !m.closed && !m.discon
    ensures MsgCore.Write(m, [b]) == (Start(m.(incomplete := Some(Packet(m.Stamp(), m.typ, [b])), nWrit := m.nWrit + 1)), Count(1))
  {
    var w := Start(m.(incomplete := Some(Packet(m.Stamp(), m.typ, [])), nWrit := m.nWrit + 1));
    assert PacketNew(Start(m)) == w;
    var w1 := Put(w, [b][..1]);
    assert [] + [b][..1] == [b];
    assert w1 == Start(m.(incomplete := Some(Packet(m.Stamp(), m.typ, [b])), nWrit := m.nWrit + 1));
    assert ChunkSize(w, [b]) == 1 && MakeRoom(w) == w && [b][1..] == [];
    assert Fill(w, [b]) == Fill(w1, []);
    assert Fill(w1, []) == w1;
  }

  /** The first packet has made a message of the second switch, which owes an acknowledgement. */
  function Arrived(): System { System(One(false, A4, OURS, [], []), One(true, B1, THEIRS, [Resp(1, Ok)], []), [], []) }

  lemma OpenedAndSent()
    ensures R.Reachable(System(One(false, A4, OURS, [], []), EMPTY_NODE, [Pack(P1)], []))
  {
    hide R.Reachable, UserWork, MsgCore.Write, PopWrit, RecvPack, Adds, One, Plausible, MsgCore.Fresh;
    WorkA();
    AllPlausible();
    var s1 := System(One(false, A1, NEW_PAST, [], []), EMPTY_NODE, [], []);
    Opened();
    var s2 := s1.(a := One(false, A2, OURS, [], []));
    AddsNothing(A1, NEW_PAST, [], [], Start(A2), OURS);
    assert NEW_PAST.written + [7] == [7];
    DoUser(s1, true, A1, NEW_PAST, [], [], C.Write([7]), Start(A2), OURS, [], [], s2);
    var s3 := s1.(a := One(false, A3, OURS, [], [1]));
    AddsTurn(A2, OURS, [], Start(A3).(push := 1));
    assert OURS.written + [] == OURS.written;
    DoUser(s2, true, A2, OURS, [], [], C.Flush, Start(A3).(push := 1), OURS, [], [1], s3);
    DoSendPack(s3, true, A3, OURS, Start(A4), s1.(a := One(false, A4, OURS, [], []), ab := [Pack(P1)]));
  }

  lemma Opened()
    ensures R.Reachable(System(One(false, A1, NEW_PAST, [], []), EMPTY_NODE, [], []))
  {
    hide R.Reachable;
    GoStart();
    Go(START, true, Open(1, 0), System(One(false, A1, NEW_PAST, [], []), EMPTY_NODE, [], []));
  }

  lemma HasArrived()
    ensures R.Reachable(Arrived())
  {
    hide R.Reachable, UserWork, MsgCore.Write, PopWrit, RecvPack, Apply;
    OpenedAndSent();
    WorkA();
    Lists();
    var s := System(One(false, A4, OURS, [], []), EMPTY_NODE, [Pack(P1)], []);
    var b0 := Create(EMPTY_NODE, 1, 1, 0);
    assert b0 == One(true, MsgCore.Fresh(1, 1, 0), THEIRS, [], []);
    var w := Start(B1).(emit := [Ok]);
    WorkOn(true, MsgCore.Fresh(1, 1, 0), THEIRS, [], [], w, C.Absorb(EndOf(b0, 1), w));
    Go(s, false, Recv(1), Arrived());
  }

  // ---------- a disconnect is met while sending ----------

  const B2 := B1.(incomplete := Some(P2), nWrit := 1)
  const B3 := B2.(incomplete := None, writQ := [P2], availWrit := true, writing := true)
  const B4 := B3.(sentDiscon := true, discon := true, imsgid := 0, writQ := [], availWrit := false, waiting := true, writing := false)
  const A5 := A4.(waiting := false)
  const A6 := A5.(closed := true, sentDiscon := true)
  const ANSWERED := THEIRS.(written := [8])
  const CLOSED := OURS.(discons := 1)
  const TOLD := ANSWERED.(discons := 1, gotDiscon := true)

  lemma WorkB()
    ensures UserWork(B1, C.Write([8])) == Start(B2) && MsgCore.Write(B1, [8]).1.Count?
    ensures UserWork(B2, C.Flush) == Start(B3).(push := 1)
    ensures RecvResp(A4, Ok) == Start(A5)
    ensures UserWork(A5, C.Close) == Start(A6).(emit := [Discon])
    ensures RecvResp(B3, Discon) == Start(B4).(emit := [Discon])
  {
    NewPacket(B1, 8);
    var w := Start(B3.(sentDiscon := true, discon := true, imsgid := 0)).(emit := [Discon]);
    assert PopWrit(w) == Start(B4).(emit := [Discon]);
    assert DrainWrit(PopWrit(w)) == PopWrit(w);
  }

  lemma AllPlausible()
    ensures Plausible(A1, NEW_PAST) && Plausible(A2, OURS) && Plausible(A3, OURS) && Plausible(A4, OURS) && Plausible(A5, OURS)
    ensures Plausible(B1, THEIRS) && Plausible(B2, ANSWERED) && Plausible(B3, ANSWERED)
    ensures !A4.discon && !A4.availWrit && A5.incomplete.None? && !A5.availRead && RespExpected(A4, Ok)
    ensures A1.incomplete.None? && !A1.availRead && !A2.availRead && C.FlushSafe(A2)
    ensures B1.incomplete.None? && B1.readQ != [] && B2.incomplete.Some? && |B2.incomplete.value.data| == 1 && B2.readQ != [] && C.FlushSafe(B2)
    ensures !B3.discon && B3.writQ != []
    ensures A1.Stamp() == -1 && A5.Stamp() == -1 && B1.Stamp() == 1 && B3.Stamp() == 1
  {
  }

  /** The first switch has closed; `m` is what the second has made of its message meanwhile. */
  function Closed(m: Msg, past: Past, pend: seq<nat>): System {
    System(One(false, A6, CLOSED, [], []), One(true, m, past, [], pend), [Resp(-1, Discon)], [])
  }

  lemma Acknowledged(m: Msg, past: Past, pend: seq<nat>)
    requires R.Reachable(System(One(false, A4, OURS, [], []), One(true, m, past, [Resp(1, Ok)], pend), [], []))
    ensures R.Reachable(System(One(false, A5, OURS, [], []), One(true, m, past, [], pend), [], []))
  {
    hide R.Reachable, UserWork, RecvResp, Plausible, MsgCore.Fresh, One, Adds;
    WorkB();
    AllPlausible();
    var s := System(One(false, A4, OURS, [], []), One(true, m, past, [Resp(1, Ok)], pend), [], []);
    var s1 := System(One(false, A4, OURS, [], []), One(true, m, past, [], pend), [], [Resp(1, Ok)]);
    assert [Resp(1, Ok)] == [Resp(1, Ok)] + [];
    DoSendResp(s, false, m, past, Resp(1, Ok), [], pend, s1);
    AddsNothing(A4, OURS, [], [], Start(A5), OURS);
    DoRecv(s1, true, A4, OURS, [], [], Start(A5), OURS, [], [], System(One(false, A5, OURS, [], []), One(true, m, past, [], pend), [], []));
  }

  /** The second switch acknowledges, the first closes and disconnects. */
  lemma Disconnected(m: Msg, past: Past, pend: seq<nat>)
    requires R.Reachable(System(One(false, A4, OURS, [], []), One(true, m, past, [Resp(1, Ok)], pend), [], []))
    ensures R.Reachable(Closed(m, past, pend))
  {
    hide R.Reachable, UserWork, RecvResp, Plausible, MsgCore.Fresh, One, Adds;
    WorkB();
    AllPlausible();
    Acknowledged(m, past, pend);
    var s2 := System(One(false, A5, OURS, [], []), One(true, m, past, [], pend), [], []);
    var s3 := s2.(a := One(false, A6, CLOSED, [Resp(-1, Discon)], []));
    AddsAnswer(A5, OURS, [], Start(A6).(emit := [Discon]), Discon, CLOSED);
    assert OURS.written + [] == OURS.written;
    DoUser(s2, true, A5, OURS, [], [], C.Close, Start(A6).(emit := [Discon]), CLOSED, [Resp(-1, Discon)], [], s3);
    assert [Resp(-1, Discon)] == [Resp(-1, Discon)] + [];
    DoSendResp(s3, true, A6, CLOSED, Resp(-1, Discon), [], [], Closed(m, past, pend));
  }

  /** The second switch writes an answer and, in the one run, flushes it. */
  lemma AnswerWritten()
    ensures R.Reachable(System(One(false, A4, OURS, [], []), One(true, B2, ANSWERED, [Resp(1, Ok)], []), [], []))
    ensures R.Reachable(System(One(false, A4, OURS, [], []), One(true, B3, ANSWERED, [Resp(1, Ok)], [1]), [], []))
  {
    hide R.Reachable, UserWork, MsgCore.Write, RecvResp, Plausible, MsgCore.Fresh, One, Adds;
    WorkB();
    AllPlausible();
    HasArrived();
    var s1 := Arrived().(b := One(true, B2, ANSWERED, [Resp(1, Ok)], []));
    AddsNothing(B1, THEIRS, [Resp(1, Ok)], [], Start(B2), ANSWERED);
    assert THEIRS.written + [8] == [8];
    DoUser(Arrived(), false, B1, THEIRS, [Resp(1, Ok)], [], C.Write([8]), Start(B2), ANSWERED, [Resp(1, Ok)], [], s1);
    var s2 := Arrived().(b := One(true, B3, ANSWERED, [Resp(1, Ok)], [1]));
    AddsTurn(B2, ANSWERED, [Resp(1, Ok)], Start(B3).(push := 1));
    assert ANSWERED.written + [] == ANSWERED.written;
    DoUser(s1, false, B2, ANSWERED, [Resp(1, Ok)], [], C.Flush, Start(B3).(push := 1), ANSWERED, [Resp(1, Ok)], [1], s2);
  }

  /** After the disconnect the queue of message 1 is empty, but the message is still on the send list. */
  function Stale(): System {
    System(One(false, A6, CLOSED, [], []), One(true, B4, TOLD, [], [1]), [], [Resp(1, Discon)])
  }

  /** A disconnect that arrives while an answer waits to be sent empties the queue of the message and leaves
      the message on the send list. When its turn comes the code takes a packet from the empty queue. */
  lemma StaleEntry()
    ensures R.Reachable(Closed(B3, ANSWERED, [1])) && !Guarded(R.Side(Closed(B3, ANSWERED, [1]), false), Recv(1))
    ensures Plays(Closed(B3, ANSWERED, [1]), [R.Event(false, Recv(1)), R.Event(false, Send)], Stale())
    ensures var u := R.Side(Stale(), false); Possible(u, Send) && !Safe(u, Send)
  {
    hide R.Reachable, RecvResp, Plausible, MsgCore.Fresh, One, Adds, Plays, Possible, Safe, Step, Guarded;
    AnswerWritten();
    Disconnected(B3, ANSWERED, [1]);
    StaleRun();
    StuckSend();
  }

  lemma StaleRun()
    ensures Plays(Closed(B3, ANSWERED, [1]), [R.Event(false, Recv(1)), R.Event(false, Send)], Stale())
  {
    hide R.Reachable, UserWork, MsgCore.Write, RecvResp, Plausible, MsgCore.Fresh, One, Adds, Possible, Safe, Step, Plays;
    WorkB();
    AllPlausible();
    var v := System(One(false, A6, CLOSED, [], []), One(true, B4, TOLD, [Resp(1, Discon)], [1]), [], []);
    AddsAnswer(B3, ANSWERED, [1], Start(B4).(emit := [Discon]), Discon, TOLD);
    RecvIs(R.Side(Closed(B3, ANSWERED, [1]), false), true, B3, ANSWERED, [], [1], Start(B4).(emit := [Discon]), TOLD, [Resp(1, Discon)], [1]);
    assert [Resp(1, Discon)] == [Resp(1, Discon)] + [];
    SendRespIs(R.Side(v, false), true, B4, TOLD, Resp(1, Discon), [], [1]);
    PlayLast(v, false, Send, Stale());
    assert [R.Event(false, Recv(1)), R.Event(false, Send)] == [R.Event(false, Recv(1))] + [R.Event(false, Send)];
    Play(Closed(B3, ANSWERED, [1]), false, Recv(1), v, [R.Event(false, Send)], Stale());
  }

  lemma StuckSend()
    ensures !Guarded(R.Side(Closed(B3, ANSWERED, [1]), false), Recv(1))
    ensures var u := R.Side(Stale(), false); Possible(u, Send) && !Safe(u, Send)
  {
  }

  // ---------- a flush after a disconnect ----------

  const B5 := B2.(sentDiscon := true, discon := true, imsgid := 0)
  const B6 := B5.(incomplete := None, writQ := [P2], availWrit := true, writing := true)
  const B7 := B6.(writQ := [], availWrit := false, waiting := true, writing := false)
  const FORGOTTEN := CLOSED.(gotDiscon := true)

  lemma WorkF()
    ensures RecvResp(B2, Discon) == Start(B5).(emit := [Discon])
    ensures UserWork(B5, C.Flush) == Start(B6).(push := 1)
    ensures PopWrit(Start(B6)) == Start(B7)
  {
  }

  lemma PlausibleF()
    ensures Plausible(B5, TOLD) && Plausible(B6, TOLD) && Plausible(A6, CLOSED)
    ensures DrainSafe(B2) && !B2.discon && !B2.availWrit && B5.incomplete.Some? && |B5.incomplete.value.data| == 1
    ensures B5.imsgid == 0 && B6.imsgid == 0 && A6.imsgid == 0 && !A6.writing && !A6.discon && A6.sentDiscon && !A6.availWrit && B6.writQ == [P2]
  {
  }

  /** The second switch has answered the disconnect; its answer of bytes is still half filled. */
  function Told(): System { System(One(false, A6, CLOSED, [], []), One(true, B5, TOLD, [Resp(1, Discon)], []), [], []) }

  lemma WasTold()
    ensures R.Reachable(Told())
  {
    hide R.Reachable, RecvResp, DrainSafe, Plausible, MsgCore.Fresh, One, Adds;
    AnswerWritten();
    Disconnected(B2, ANSWERED, []);
    WorkF();
    AllPlausible();
    PlausibleF();
    AddsAnswer(B2, ANSWERED, [], Start(B5).(emit := [Discon]), Discon, TOLD);
    DoRecv(Closed(B2, ANSWERED, []), false, B2, ANSWERED, [], [], Start(B5).(emit := [Discon]), TOLD, [Resp(1, Discon)], [], Told());
  }

  /** The packet that flush queued is on its way to a switch that has forgotten its message. */
  function Astray(): System {
    System(Left(false, FORGOTTEN, []), One(true, B7, TOLD, [], []), [], [Pack(P2)])
  }

  const FLUSH_RUN := [R.Event(false, User(1, C.Flush)), R.Event(false, Send), R.Event(true, Recv(1)), R.Event(false, Send)]

  /** A flush after the disconnect queues the half filled packet under the peer's id. Its peer frees the
      message when the disconnect is answered, and then takes the packet for one with an id of its own
      that it never gave out: the assertion on the sign of the id fails. */
  lemma FlushedAstray(newId: nat)
    requires newId > 0
    ensures R.Reachable(Told()) && !Guarded(R.Side(Told(), false), User(1, C.Flush))
    ensures Plays(Told(), FLUSH_RUN, Astray())
    ensures Possible(Astray(), Recv(newId)) && !Safe(Astray(), Recv(newId))
  {
    hide R.Reachable, Plays;
    WasTold();
    FlushRun();
    assert !Guarded(R.Side(Told(), false), User(1, C.Flush));
  }

  lemma FlushRun()
    ensures Plays(Told(), FLUSH_RUN, Astray())
  {
    hide R.Reachable, UserWork, RecvResp, PopWrit, Plausible, MsgCore.Fresh, One, Left, Adds, Possible, Safe, Step, Plays;
    WorkF();
    PlausibleF();
    var v1 := System(One(false, A6, CLOSED, [], []), One(true, B6, TOLD, [Resp(1, Discon)], [1]), [], []);
    AddsTurn(B5, TOLD, [Resp(1, Discon)], Start(B6).(push := 1));
    assert TOLD.written + [] == TOLD.written;
    assert B5.readQ != [];
    UserIs(R.Side(Told(), false), true, B5, TOLD, [Resp(1, Discon)], [], C.Flush, Start(B6).(push := 1), TOLD, [Resp(1, Discon)], [1]);
    var v2 := v1.(b := One(true, B6, TOLD, [], [1]), ba := [Resp(1, Discon)]);
    assert [Resp(1, Discon)] == [Resp(1, Discon)] + [];
    SendRespIs(R.Side(v1, false), true, B6, TOLD, Resp(1, Discon), [], [1]);
    var v3 := v2.(a := Left(false, FORGOTTEN, []), ba := []);
    AnswerOn(v2, A6, CLOSED, []);
    SendPackOn(R.Side(v3, false), true, B6, TOLD, Start(B7));
    assert [] + [Pack(P2)] == [Pack(P2)];
    PlayLast(v3, false, Send, Astray());
    Tails();
    Play(v2, true, Recv(1), v3, FLUSH_RUN[3..], Astray());
    Play(v1, false, Send, v2, FLUSH_RUN[2..], Astray());
    Play(Told(), false, User(1, C.Flush), v1, FLUSH_RUN[1..], Astray());
  }

  lemma Tails()
    ensures FLUSH_RUN[3..] == [R.Event(false, Send)]
    ensures [R.Event(true, Recv(1))] + FLUSH_RUN[3..] == FLUSH_RUN[2..]
    ensures [R.Event(false, Send)] + FLUSH_RUN[2..] == FLUSH_RUN[1..]
    ensures [R.Event(false, User(1, C.Flush))] + FLUSH_RUN[1..] == FLUSH_RUN
  {
  }

  // ---------- an id is used again too soon ----------

  const P3 := Packet(-1, 0, [9])
  const A7 := A5.(incomplete := Some(P3), nWrit := 2)
  const A8 := A7.(incomplete := None, writQ := [P3], availWrit := true, writing := true)
  const A9 := A8.(writQ := [], availWrit := false, waiting := true, writing := false)
  const A10 := A9.(sentDiscon := true, discon := true, spaceRead := false, spaceWrit := false, waiting := false)
  const B8 := B1.(nRead := 2, needResp := true, readQ := [P1, P3], spaceRead := false)
  const B9 := B8.(closed := true, sentDiscon := true, needResp := false, readQ := [], availRead := false, spaceRead := true)
  const OURS2 := OURS.(written := [7, 9])
  const HEARD := OURS2.(discons := 1, gotDiscon := true)
  const HUNG_UP := THEIRS.(discons := 1)

  lemma WorkG()
    ensures UserWork(A5, C.Write([9])) == Start(A7) && MsgCore.Write(A5, [9]).1.Count?
    ensures UserWork(A7, C.Flush) == Start(A8).(push := 1)
    ensures PopWrit(Start(A8)) == Start(A9)
    ensures RecvPack(B1, P3) == Start(B8)
    ensures RecvResp(A9, Discon) == Start(A10).(emit := [Discon])
  {
    NewPacket(A5, 9);
    hide Fill;
  }

  /** Closing a message that holds two unread packets disconnects first and acknowledges afterwards. */
  lemma ClosesWithTwo()
    ensures UserWork(B8, C.Close) == Start(B9).(emit := [Discon, Ok])
  {
    var w := Disconnect(Start(B8.(closed := true)));
    assert w == Start(B8.(closed := true, sentDiscon := true)).(emit := [Discon]);
    assert [P1, P3][1..] == [P3] && [P3][1..] == [];
    var w1 := PopRead(w);
    assert [Discon] + [Ok] == [Discon, Ok];
    assert w1 == Start(B8.(closed := true, sentDiscon := true, needResp := false, readQ := [P3], spaceRead := true)).(emit := [Discon, Ok]);
    assert PopRead(w1) == Start(B9).(emit := [Discon, Ok]);
    assert DrainRead(PopRead(w1)) == PopRead(w1);
    assert DrainRead(w1) == PopRead(w1);
  }

  lemma PlausibleG()
    ensures Plausible(A7, OURS2) && Plausible(A8, OURS2) && Plausible(A9, OURS2) && Plausible(A10, HEARD) && Plausible(B8, THEIRS)
    ensures A7.incomplete.Some? && |A7.incomplete.value.data| == 1 && !A7.availRead && C.FlushSafe(A7) && A8.writQ == [P3]
    ensures Means(-1, B1) && !B1.discon && B8.incomplete.None? && B8.readQ != [] && B8.Stamp() == 1
    ensures !A9.discon && !A9.availWrit && DrainSafe(A9) && A9.Stamp() == -1
    ensures A10.imsgid == 0 && !A10.writing && !A10.closed && A10.discon && !A10.availRead
  {
  }

  /** The window of the second switch is full. */
  function Full(): System { System(One(false, A9, OURS2, [], []), One(true, B8, THEIRS, [], []), [], []) }

  lemma SecondSent()
    ensures R.Reachable(System(One(false, A9, OURS2, [], []), One(true, B1, THEIRS, [], []), [Pack(P3)], []))
  {
    hide R.Reachable, UserWork, MsgCore.Write, PopWrit, RecvPack, RecvResp, Plausible, MsgCore.Fresh, One, Adds;
    HasArrived();
    Acknowledged(B1, THEIRS, []);
    WorkG();
    AllPlausible();
    PlausibleG();
    var s := System(One(false, A5, OURS, [], []), One(true, B1, THEIRS, [], []), [], []);
    var s1 := s.(a := One(false, A7, OURS2, [], []));
    AddsNothing(A5, OURS, [], [], Start(A7), OURS2);
    assert OURS.written + [9] == [7, 9];
    DoUser(s, true, A5, OURS, [], [], C.Write([9]), Start(A7), OURS2, [], [], s1);
    var s2 := s.(a := One(false, A8, OURS2, [], [1]));
    AddsTurn(A7, OURS2, [], Start(A8).(push := 1));
    assert OURS2.written + [] == OURS2.written;
    DoUser(s1, true, A7, OURS2, [], [], C.Flush, Start(A8).(push := 1), OURS2, [], [1], s2);
    assert [] + [Pack(P3)] == [Pack(P3)];
    DoSendPack(s2, true, A8, OURS2, Start(A9), s.(a := One(false, A9, OURS2, [], []), ab := [Pack(P3)]));
  }

  lemma IsFull()
    ensures R.Reachable(Full())
  {
    hide R.Reachable, UserWork, MsgCore.Write, PopWrit, RecvPack, RecvResp, Plausible, MsgCore.Fresh, One, Adds;
    SecondSent();
    WorkG();
    AllPlausible();
    PlausibleG();
    var s := System(One(false, A9, OURS2, [], []), One(true, B1, THEIRS, [], []), [Pack(P3)], []);
    AddsNothing(B1, THEIRS, [], [], Start(B8), THEIRS);
    DoRecv(s, false, B1, THEIRS, [], [], Start(B8), THEIRS, [], [], Full());
  }

  /** The second switch closes; its disconnect is answered, its late acknowledgement still to be sent. */
  lemma HungUp()
    ensures R.Reachable(System(One(false, A10, HEARD, [Resp(-1, Discon)], []), One(true, B9, HUNG_UP, [Resp(1, Ok)], []), [], []))
  {
    hide R.Reachable, UserWork, MsgCore.Write, PopWrit, RecvPack, RecvResp, Plausible, MsgCore.Fresh, One, Adds, DrainSafe;
    IsFull();
    WorkG();
    ClosesWithTwo();
    PlausibleG();
    var s1 := Full().(b := One(true, B9, HUNG_UP, [Resp(1, Discon), Resp(1, Ok)], []));
    AddsTwo(B8, THEIRS, [], Start(B9).(emit := [Discon, Ok]), HUNG_UP);
    assert THEIRS.written + [] == THEIRS.written;
    DoUser(Full(), false, B8, THEIRS, [], [], C.Close, Start(B9).(emit := [Discon, Ok]), HUNG_UP, [Resp(1, Discon), Resp(1, Ok)], [], s1);
    var s2 := Full().(b := One(true, B9, HUNG_UP, [Resp(1, Ok)], []), ba := [Resp(1, Discon)]);
    assert [Resp(1, Discon), Resp(1, Ok)] == [Resp(1, Discon)] + [Resp(1, Ok)];
    DoSendResp(s1, false, B9, HUNG_UP, Resp(1, Discon), [Resp(1, Ok)], [], s2);
    AddsAnswer(A9, OURS2, [], Start(A10).(emit := [Discon]), Discon, HEARD);
    DoRecv(s2, true, A9, OURS2, [], [], Start(A10).(emit := [Discon]), HEARD, [Resp(-1, Discon)], [],
      s2.(a := One(false, A10, HEARD, [Resp(-1, Discon)], []), ba := []));
  }

  /** Message 1 is gone, and its last acknowledgement is on its way. */
  function Late(): System {
    System(Left(false, HEARD, [Resp(-1, Discon)]), One(true, B9, HUNG_UP, [], []), [], [Resp(1, Ok)])
  }

  lemma IsLate()
    ensures R.Reachable(Late())
  {
    hide R.Reachable, Plausible, MsgCore.Fresh, One, Left, Step, Safe, Possible, Guarded;
    HungUp();
    PlausibleG();
    var s := System(One(false, A10, HEARD, [Resp(-1, Discon)], []), One(true, B9, HUNG_UP, [Resp(1, Ok)], []), [], []);
    CloseOn(s, A10, HEARD, [Resp(-1, Discon)]);
    var s1 := s.(a := Left(false, HEARD, [Resp(-1, Discon)]));
    Go(s, true, User(1, C.Close), s1);
    assert [Resp(1, Ok)] == [Resp(1, Ok)] + [];
    DoSendResp(s1, false, B9, HUNG_UP, Resp(1, Ok), [], [], Late());
  }

  /** Nothing keeps the first switch from giving id 1, the least free, to a new message. The acknowledgement
      meant for the old one then reaches the new, and the assertion that it was awaited fails. */
  lemma ReusedTooSoon()
    ensures R.Reachable(Late()) && Possible(Late(), Open(1, 0)) && !Guarded(Late(), Open(1, 0))
    ensures Safe(Late(), Open(1, 0)) && var t := Step(Late(), Open(1, 0)); Possible(t, Recv(1)) && !Safe(t, Recv(1))
  {
    hide R.Reachable;
    IsLate();
    var t := Step(Late(), Open(1, 0));
    assert 1 in t.a.sw.msgs && t.a.sw.msgs[1] == A1 && t.ba == [Resp(1, Ok)];
  }

  // ---------- an id that a received packet takes too soon ----------

  /** The second switch with message 1, accepted from the peer's 1, and message 2 of its own. */
  function Both(m1: Msg, past1: Past, m2: Msg, past2: Past, resps: seq<Frame>, pend: seq<nat>): Node {
    Node(Switch(map[1 := m1, 2 := m2], map[1 := 1], resps, pend, resps != [] || pend != []),
         map[1 := past1, 2 := past2], map[1 := 1])
  }

  /** Message 1 is the peer's, message 2 is ours. */
  predicate Pair(m1: Msg, past1: Past, m2: Msg, past2: Past) {
    m1.msgid == 1 && m1.imsgid == 1 && past1.origin == 1 && m2.msgid == 2 && m2.imsgid == 0 && past2.origin == 0
  }

  function Logged(origin: nat, x: C.End): Past { Past(origin, x.written, x.delivered, x.discons, x.gotDiscon, x.eof) }

  lemma FirstOf(m1: Msg, past1: Past, m2: Msg, past2: Past, resps: seq<Frame>, pend: seq<nat>, w: Work, x: C.End)
    requires Pair(m1, past1, m2, past2) && !w.freed && !w.drop && w.m.imsgid == 1 && w.push == 0
    ensures Update(Both(m1, past1, m2, past2, resps, pend), 1, w, x)
      == Both(w.m, Logged(1, x), m2, past2, resps + Stamps(1, w.emit), pend)
  {
    var nd := Both(m1, past1, m2, past2, resps, pend);
    assert pend + Repeat(1, 0) == pend;
    if w.emit == [] { assert resps + Stamps(1, []) == resps; }
    assert nd.sw.msgs[1 := w.m] == map[1 := w.m, 2 := m2];
    assert nd.past[1 := Logged(1, x)] == map[1 := Logged(1, x), 2 := past2];
  }

  lemma SecondOf(m1: Msg, past1: Past, m2: Msg, past2: Past, resps: seq<Frame>, pend: seq<nat>, w: Work, x: C.End)
    requires Pair(m1, past1, m2, past2) && !w.freed && !w.drop && w.m.imsgid == 0 && w.emit == []
    ensures Update(Both(m1, past1, m2, past2, resps, pend), 2, w, x)
      == Both(m1, past1, w.m, Logged(0, x), resps, pend + Repeat(2, w.push))
  {
    var nd := Both(m1, past1, m2, past2, resps, pend);
    assert resps + Stamps(m2.Stamp(), []) == resps;
    if w.push == 0 { assert pend + Repeat(2, 0) == pend; }
    assert nd.sw.msgs[2 := w.m] == map[1 := m1, 2 := w.m];
    assert (map k | k in nd.sw.idmap && k != 0 :: nd.sw.idmap[k]) == map[1 := 1];
    assert nd.past[2 := Logged(0, x)] == map[1 := past1, 2 := Logged(0, x)];
  }

  const Q := Packet(-2, 0, [8])
  const SAID := NEW_PAST.(written := [8])
  const B11 := B1.(closed := true, sentDiscon := true, readQ := [], availRead := false)
  const B12 := B11.(nRead := 2, availRead := true)
  const C1 := MsgCore.Fresh(2, 0, 0).(connected := true)
  const C2 := C1.(incomplete := Some(Q), nWrit := 1)
  const C3 := C2.(incomplete := None, writQ := [Q], availWrit := true, writing := true)
  const C4 := C3.(writQ := [], availWrit := false, waiting := true, writing := false)

  lemma WorkH()
    ensures UserWork(B1, C.Close) == Start(B11).(emit := [Discon])
    ensures UserWork(C1, C.Write([8])) == Start(C2) && MsgCore.Write(C1, [8]).1.Count?
    ensures UserWork(C2, C.Flush) == Start(C3).(push := 1)
    ensures PopWrit(Start(C3)) == Start(C4)
    ensures RecvPack(B11, P3) == Start(B12).(emit := [Ok])
  {
    NewPacket(C1, 8);
    hide Fill;
    ClosesWithOne();
  }

  lemma ClosesWithOne()
    ensures UserWork(B1, C.Close) == Start(B11).(emit := [Discon])
  {
    var w := Disconnect(Start(B1.(closed := true)));
    assert [P1][1..] == [];
    assert PopRead(w) == Start(B11).(emit := [Discon]);
    assert DrainRead(PopRead(w)) == PopRead(w);
  }

  lemma PairH()
    ensures Pair(B11, HUNG_UP, C1, NEW_PAST) && Pair(B11, HUNG_UP, C2, SAID) && Pair(B11, HUNG_UP, C3, SAID) && Pair(B11, HUNG_UP, C4, SAID)
    ensures B1.Stamp() == 1 && B1.incomplete.None? && B1.readQ != [] && C3.writQ == [Q] && Plausible(B1, THEIRS)
  {
  }

  /** The peer of message 1 has closed while a packet is on its way to it. */
  lemma PeerClosed()
    ensures R.Reachable(System(One(false, A9, OURS2, [], []), One(true, B11, HUNG_UP, [], []), [Pack(P3)], [Resp(1, Discon)]))
  {
    hide R.Reachable, UserWork, MsgCore.Write, PopWrit, RecvPack, Plausible, MsgCore.Fresh, One, Adds;
    SecondSent();
    WorkH();
    PairH();
    var s := System(One(false, A9, OURS2, [], []), One(true, B1, THEIRS, [], []), [Pack(P3)], []);
    var s1 := s.(b := One(true, B11, HUNG_UP, [Resp(1, Discon)], []));
    AddsAnswer(B1, THEIRS, [], Start(B11).(emit := [Discon]), Discon, HUNG_UP);
    assert THEIRS.written + [] == THEIRS.written;
    DoUser(s, false, B1, THEIRS, [], [], C.Close, Start(B11).(emit := [Discon]), HUNG_UP, [Resp(1, Discon)], [], s1);
    assert [Resp(1, Discon)] == [Resp(1, Discon)] + [];
    DoSendResp(s1, false, B11, HUNG_UP, Resp(1, Discon), [], [], s.(b := One(true, B11, HUNG_UP, [], []), ba := [Resp(1, Discon)]));
  }

  /** The second switch, with its message 2 in the state m. */
  function Talking(m: Msg, past: Past, pend: seq<nat>, more: seq<Frame>): System {
    System(One(false, A9, OURS2, [], []), Both(B11, HUNG_UP, m, past, [], pend), [Pack(P3)], [Resp(1, Discon)] + more)
  }

  lemma OpensSecond()
    ensures R.Reachable(Talking(C1, NEW_PAST, [], []))
  {
    hide R.Reachable;
    PeerClosed();
    var s := System(One(false, A9, OURS2, [], []), One(true, B11, HUNG_UP, [], []), [Pack(P3)], [Resp(1, Discon)]);
    assert [Resp(1, Discon)] + [] == [Resp(1, Discon)];
    assert map[1 := B11][2 := C1] == map[1 := B11, 2 := C1] && map[1 := HUNG_UP][2 := NEW_PAST] == map[1 := HUNG_UP, 2 := NEW_PAST];
    Go(s, false, Open(2, 0), Talking(C1, NEW_PAST, [], []));
  }

  lemma UserSecond(s: System, m1: Msg, past1: Past, m2: Msg, past2: Past, pend: seq<nat>, act: C.Act, w: Work, pend1: seq<nat>)
    requires s.a == Both(m1, past1, m2, past2, [], pend) && Pair(m1, past1, m2, past2) && (act.Write? || act.Flush?)
    requires m2.incomplete.Some? ==> |m2.incomplete.value.data| <= PACK_DATA_SIZE
    requires w == UserWork(m2, act) && !w.freed && !w.drop && w.m.imsgid == 0 && w.emit == [] && pend1 == pend + Repeat(2, w.push)
    ensures Possible(s, User(2, act)) && Safe(s, User(2, act))
    ensures Step(s, User(2, act)) == s.(a := Both(m1, past1, w.m, past2.(written := past2.written + Accepted(m2, act)), [], pend1))
  {
    hide MsgCore.Write, MsgCore.Flush, Apply, Stamps, Repeat, Update;
    var x := C.Step(Alone(s.a, 2), act).a;
    SecondOf(m1, past1, m2, past2, [], pend, w, x);
    assert past2.written + [] == past2.written;
    assert x == C.Absorb(EndOf(s.a, 2), w).(written := past2.written + Accepted(m2, act));
    assert Step(s, User(2, act)) == s.(a := Update(s.a, 2, w, x));
  }

  lemma WritesSecond()
    ensures R.Reachable(Talking(C2, SAID, [], []))
  {
    hide R.Reachable, UserWork, MsgCore.Write, Step, Safe, Both;
    OpensSecond();
    WorkH();
    PairH();
    var u := R.Side(Talking(C1, NEW_PAST, [], []), false);
    assert NEW_PAST.written + [8] == [8];
    assert [] + Repeat(2, 0) == [];
    UserSecond(u, B11, HUNG_UP, C1, NEW_PAST, [], C.Write([8]), Start(C2), []);
    Go(Talking(C1, NEW_PAST, [], []), false, User(2, C.Write([8])), Talking(C2, SAID, [], []));
  }

  lemma FlushesSecond()
    ensures R.Reachable(Talking(C3, SAID, [2], []))
  {
    hide R.Reachable, UserWork, MsgCore.Write, Step, Safe, Both;
    WritesSecond();
    WorkH();
    PairH();
    var u := R.Side(Talking(C2, SAID, [], []), false);
    assert SAID.written + [] == SAID.written;
    assert [] + Repeat(2, 1) == [2];
    UserSecond(u, B11, HUNG_UP, C2, SAID, [], C.Flush, Start(C3).(push := 1), [2]);
    BothGuarded(u, B11, HUNG_UP, C2, SAID, []);
    Go(Talking(C2, SAID, [], []), false, User(2, C.Flush), Talking(C3, SAID, [2], []));
  }

  lemma BothGuarded(s: System, m1: Msg, past1: Past, m2: Msg, past2: Past, pend: seq<nat>)
    requires s.a == Both(m1, past1, m2, past2, [], pend) && C.FlushSafe(m2)
    ensures Guarded(s, User(2, C.Flush))
  {
  }

  lemma SendsSecond()
    ensures R.Reachable(Talking(C4, SAID, [], [Pack(Q)]))
  {
    hide R.Reachable, PopWrit, Update;
    FlushesSecond();
    WorkH();
    PairH();
    var u := R.Side(Talking(C3, SAID, [2], []), false);
    SecondOf(B11, HUNG_UP, C3, SAID, [], [2], Start(C4), C.Absorb(EndOf(u.a, 2), Start(C4)));
    assert [2] + Repeat(2, 0) == [2] && [2][1..] == [];
    assert [Resp(1, Discon)] + [] + [Pack(Q)] == [Resp(1, Discon)] + [Pack(Q)];
    Go(Talking(C3, SAID, [2], []), false, Send, Talking(C4, SAID, [], [Pack(Q)]));
  }

  lemma RecvFirst(s: System, m1: Msg, past1: Past, m2: Msg, past2: Past, p: Packet, w: Work)
    requires s.a == Both(m1, past1, m2, past2, [], []) && Pair(m1, past1, m2, past2) && s.ba == [Pack(p)] && p.msgid == -1
    requires !m1.discon && w == RecvPack(m1, p) && !w.freed && !w.drop && w.m.imsgid == 1 && w.push == 0 && w.emit == [Ok]
    ensures Possible(s, Recv(1)) && Safe(s, Recv(1)) && Guarded(s, Recv(1))
    ensures Step(s, Recv(1)) == s.(ba := [], a := Both(w.m, past1, m2, past2, [Resp(1, Ok)], []))
  {
    hide RecvPack, Apply, Stamps, Update;
    Lists();
    var x := C.Absorb(EndOf(s.a, 1), w);
    FirstOf(m1, past1, m2, past2, [], [], w, x);
    assert Logged(1, x) == past1;
    assert [] + [Resp(1, Ok)] == [Resp(1, Ok)];
  }

  /** The packet for message 1 arrives at its closed peer, whose acknowledgement follows the other packet. */
  lemma TakesLate()
    ensures R.Reachable(System(One(false, A9, OURS2, [], []), Both(B12, HUNG_UP, C4, SAID, [Resp(1, Ok)], []), [],
                               [Resp(1, Discon), Pack(Q)]))
  {
    hide R.Reachable, RecvPack, Step, Safe, Both;
    SendsSecond();
    WorkH();
    PairH();
    var t := Talking(C4, SAID, [], [Pack(Q)]);
    RecvFirst(R.Side(t, false), B11, HUNG_UP, C4, SAID, P3, Start(B12).(emit := [Ok]));
    assert [Resp(1, Discon)] + [Pack(Q)] == [Resp(1, Discon), Pack(Q)];
    Go(t, false, Recv(1), System(One(false, A9, OURS2, [], []), Both(B12, HUNG_UP, C4, SAID, [Resp(1, Ok)], []), [],
                                 [Resp(1, Discon), Pack(Q)]));
  }

  lemma AcksLate()
    ensures R.Reachable(System(One(false, A9, OURS2, [], []), Both(B12, HUNG_UP, C4, SAID, [], []), [],
                               [Resp(1, Discon), Pack(Q), Resp(1, Ok)]))
  {
    hide R.Reachable, One;
    TakesLate();
    var t1 := System(One(false, A9, OURS2, [], []), Both(B12, HUNG_UP, C4, SAID, [Resp(1, Ok)], []), [], [Resp(1, Discon), Pack(Q)]);
    assert [Resp(1, Ok)][1..] == [] && [Resp(1, Discon), Pack(Q)] + [Resp(1, Ok)] == [Resp(1, Discon), Pack(Q), Resp(1, Ok)];
    Go(t1, false, Send, System(One(false, A9, OURS2, [], []), Both(B12, HUNG_UP, C4, SAID, [], []), [],
                               [Resp(1, Discon), Pack(Q), Resp(1, Ok)]));
  }

  /** Message 1 is gone; a packet of the peer's message 2 is next, and the late acknowledgement follows it. */
  function Taken(): System {
    System(Left(false, HEARD, [Resp(-1, Discon)]), Both(B12, HUNG_UP, C4, SAID, [], []), [], [Pack(Q), Resp(1, Ok)])
  }

  lemma IsTaken()
    ensures R.Reachable(Taken())
  {
    hide R.Reachable, RecvResp, Plausible, DrainSafe, MsgCore.Fresh, One, Both, Left, Adds, Step, Safe, Possible, Guarded;
    AcksLate();
    WorkG();
    PlausibleG();
    var s := System(One(false, A9, OURS2, [], []), Both(B12, HUNG_UP, C4, SAID, [], []), [], [Resp(1, Discon), Pack(Q), Resp(1, Ok)]);
    assert [Resp(1, Discon), Pack(Q), Resp(1, Ok)][1..] == [Pack(Q), Resp(1, Ok)];
    var s1 := s.(a := One(false, A10, HEARD, [Resp(-1, Discon)], []), ba := [Pack(Q), Resp(1, Ok)]);
    AddsAnswer(A9, OURS2, [], Start(A10).(emit := [Discon]), Discon, HEARD);
    DoRecv(s, true, A9, OURS2, [], [], Start(A10).(emit := [Discon]), HEARD, [Resp(-1, Discon)], [], s1);
    CloseOn(s1, A10, HEARD, [Resp(-1, Discon)]);
    Go(s1, true, User(1, C.Close), Taken());
  }

  /** The packet makes a message of its own of the first switch, which gets id 1, the least free. The
      acknowledgement behind it, meant for the old message 1, then reaches the new one, and the assertion
      that it was awaited fails. */
  lemma TakenTooSoon()
    ensures R.Reachable(Taken()) && Creates(Taken()) && Possible(Taken(), Recv(1)) && !Guarded(Taken(), Recv(1))
    ensures Safe(Taken(), Recv(1)) && var t := Step(Taken(), Recv(1)); Possible(t, Recv(1)) && !Safe(t, Recv(1))
  {
    hide R.Reachable, Inv, Step, Creates, Safe, Possible, Guarded, Lookup;
    IsTaken();
    CanTake();
    R.Always(Taken());
    R.Created(Taken(), 1);
    NotAwaited(Step(Taken(), Recv(1)));
  }

  lemma CanTake()
    ensures Creates(Taken()) && Possible(Taken(), Recv(1)) && Safe(Taken(), Recv(1)) && !Guarded(Taken(), Recv(1))
    ensures Taken().ba[1..] == [Resp(1, Ok)]
  {
  }

  lemma NotAwaited(t: System)
    requires 1 in t.a.sw.msgs && !t.a.sw.msgs[1].waiting && !t.a.sw.msgs[1].sentDiscon
    requires Lookup(t.a.sw, 1) == Some(1) && t.ba == [Resp(1, Ok)]
    ensures Possible(t, Recv(1)) && !Safe(t, Recv(1))
  {
  }

  // ---------- an id is used again while a packet is under way ----------

  /** Message 1 is gone, and nothing is on its way to it; but its last packet has not arrived yet. */
  function UnderWay(): System {
    System(Left(false, HEARD, [Resp(-1, Discon)]), One(true, B11, HUNG_UP, [], []), [Pack(P3)], [])
  }

  function Heard(): System {
    System(One(false, A10, HEARD, [Resp(-1, Discon)], []), One(true, B11, HUNG_UP, [], []), [Pack(P3)], [])
  }

  lemma IsHeard()
    ensures R.Reachable(Heard())
  {
    hide R.Reachable, RecvResp, Plausible, DrainSafe, MsgCore.Fresh, One, Left, Adds, Step, Safe, Possible, Guarded;
    PeerClosed();
    WorkG();
    PlausibleG();
    var s := System(One(false, A9, OURS2, [], []), One(true, B11, HUNG_UP, [], []), [Pack(P3)], [Resp(1, Discon)]);
    var s1 := Heard();
    AddsAnswer(A9, OURS2, [], Start(A10).(emit := [Discon]), Discon, HEARD);
    DoRecv(s, true, A9, OURS2, [], [], Start(A10).(emit := [Discon]), HEARD, [Resp(-1, Discon)], [], s1);
  }

  lemma IsUnderWay()
    ensures R.Reachable(UnderWay())
  {
    hide R.Reachable, RecvResp, Plausible, DrainSafe, MsgCore.Fresh, One, Left, Adds, Step, Safe, Possible, Guarded;
    IsHeard();
    WorkG();
    PlausibleG();
    CloseOn(Heard(), A10, HEARD, [Resp(-1, Discon)]);
    Go(Heard(), true, User(1, C.Close), UnderWay());
  }

  /** Id 1 given out again, and the old packet answered. */
  function Reopened(): System {
    System(One(false, A1, NEW_PAST, [Resp(-1, Discon)], []), One(true, B12, HUNG_UP, [], []), [], [Resp(1, Ok)])
  }

  const LATE_RUN := [R.Event(true, Open(1, 0)), R.Event(false, Recv(1)), R.Event(false, Send)]

  /** The acknowledgement of that packet comes later, and the assertion fails as before. */
  lemma ReusedUnderWay()
    ensures R.Reachable(UnderWay()) && R.OnTheWay(Swap(UnderWay()), 1) == [] && !Guarded(UnderWay(), Open(1, 0))
    ensures Plays(UnderWay(), LATE_RUN, Reopened())
    ensures Possible(Reopened(), Recv(1)) && !Safe(Reopened(), Recv(1))
  {
    hide R.Reachable, Plays;
    IsUnderWay();
    LateRun();
    assert 1 in Reopened().a.sw.msgs && Reopened().a.sw.msgs[1] == A1;
  }

  lemma LateRun()
    ensures Plays(UnderWay(), LATE_RUN, Reopened())
  {
    hide R.Reachable, RecvPack, Plausible, MsgCore.Fresh, One, Adds, Possible, Safe, Step, Plays;
    WorkH();
    WorkLate();
    var v1 := System(One(false, A1, NEW_PAST, [Resp(-1, Discon)], []), One(true, B11, HUNG_UP, [], []), [Pack(P3)], []);
    OpenLeft(UnderWay());
    var v2 := v1.(b := One(true, B12, HUNG_UP, [Resp(1, Ok)], []), ab := []);
    AddsAnswer(B11, HUNG_UP, [], Start(B12).(emit := [Ok]), Ok, HUNG_UP);
    RecvIs(R.Side(v1, false), true, B11, HUNG_UP, [], [], Start(B12).(emit := [Ok]), HUNG_UP, [Resp(1, Ok)], []);
    assert [Resp(1, Ok)] == [Resp(1, Ok)] + [] && [Pack(P3)][1..] == [];
    SendRespIs(R.Side(v2, false), true, B12, HUNG_UP, Resp(1, Ok), [], []);
    PlayLast(v2, false, Send, Reopened());
    LateTails();
    Play(v1, false, Recv(1), v2, LATE_RUN[2..], Reopened());
    Play(UnderWay(), true, Open(1, 0), v1, LATE_RUN[1..], Reopened());
  }

  lemma LateTails()
    ensures LATE_RUN[2..] == [R.Event(false, Send)]
    ensures [R.Event(false, Recv(1))] + LATE_RUN[2..] == LATE_RUN[1..]
    ensures [R.Event(true, Open(1, 0))] + LATE_RUN[1..] == LATE_RUN
  {
  }

  lemma WorkLate()
    ensures Plausible(B11, HUNG_UP) && Means(-1, B11) && !B11.discon && B11.Stamp() == 1
  {
  }

  lemma OpenLeft(s: System)
    requires s.a == Left(false, HEARD, [Resp(-1, Discon)])
    ensures Possible(s, Open(1, 0)) && Safe(s, Open(1, 0))
    ensures Step(s, Open(1, 0)) == s.(a := One(false, A1, NEW_PAST, [Resp(-1, Discon)], []))
  {
    assert map[][1 := A1] == map[1 := A1] && map[1 := HEARD][1 := NEW_PAST] == map[1 := NEW_PAST];
  }

  // ---------- an unread message is accepted after its peer has disconnected ----------

  const D1 := B1.(sentDiscon := true, discon := true, imsgid := 0)
  const UNREAD := THEIRS.(discons := 1, gotDiscon := true)

  /** The first switch wrote a byte and closed; the second has not accepted the message yet. */
  function Unaccepted(): System { System(One(false, A6, CLOSED, [], []), One(true, D1, UNREAD, [Resp(1, Discon)], []), [], []) }

  lemma WorkD()
    ensures RecvResp(B1, Discon) == Start(D1).(emit := [Discon])
    ensures Plausible(B1, THEIRS) && DrainSafe(B1) && !B1.discon && !B1.availWrit && B1.Stamp() == 1
  {
  }

  lemma WasUnaccepted()
    ensures R.Reachable(Unaccepted())
  {
    hide R.Reachable, RecvResp, DrainSafe, Plausible, MsgCore.Fresh, One, Adds;
    HasArrived();
    Disconnected(B1, THEIRS, []);
    WorkD();
    AddsAnswer(B1, THEIRS, [], Start(D1).(emit := [Discon]), Discon, UNREAD);
    DoRecv(Closed(B1, THEIRS, []), false, B1, THEIRS, [], [], Start(D1).(emit := [Discon]), UNREAD, [Resp(1, Discon)], [], Unaccepted());
  }

  /** Accepting it now, a step like any other, frees it. The byte is lost, though the reader never closed. */
  lemma AcceptLoses()
    ensures R.Reachable(Unaccepted())
    ensures var s := R.Side(Unaccepted(), false); var mv := User(1, C.Act.Accept);
      && Enabled(s, mv) && Safe(s, mv) && !s.a.sw.msgs[1].closed
      && var s1 := Step(s, mv);
        1 !in s1.a.sw.msgs && 1 in s1.a.past && s1.a.past[1].delivered == [] && s1.b.past[1].written == [7]
  {
    hide R.Reachable;
    WasUnaccepted();
    R.AcceptDrops(Unaccepted(), false, 1);
    var s := R.Side(Unaccepted(), false);
    FlatOne(P1);
    assert s.a.sw.msgs[1] == D1 && D1.Unread() == [7] && s.b.past[1] == CLOSED;
    var s1 := Step(s, User(1, C.Act.Accept));
    assert R.Peer(s, 1).written == [7];
    assert |s1.a.past[1].delivered + D1.Unread()| == 1;
  }

  // ---------- a packet without a byte ----------

  const E := Packet(-1, 0, [])
  const E2 := A1.(incomplete := Some(E), nWrit := 1)
  const E3 := E2.(incomplete := None, writQ := [E], availWrit := true, writing := true)
  const E4 := E3.(writQ := [], availWrit := false, waiting := true, writing := false)
  const E5 := E4.(incomplete := Some(P1), nWrit := 2)
  const F1 := MsgCore.Fresh(1, 1, 0).(nRead := 1, readQ := [E], availRead := true)

  lemma WorkE()
    ensures UserWork(A1, C.Write([])) == Start(E2) && MsgCore.Write(A1, []).1.Count?
    ensures UserWork(E2, C.Flush) == Start(E3).(push := 1)
    ensures PopWrit(Start(E3)) == Start(E4)
    ensures RecvPack(MsgCore.Fresh(1, 1, 0), E) == Start(F1).(emit := [Ok])
    ensures UserWork(E4, C.Write([7])) == Start(E5) && MsgCore.Write(E4, [7]).1.Count?
  {
    NewPacket(E4, 7);
    assert PacketNew(Start(A1)) == Start(E2) && Fill(Start(E2), []) == Start(E2);
  }

  lemma PlausibleE()
    ensures Plausible(A1, NEW_PAST) && Plausible(E2, NEW_PAST) && Plausible(E3, NEW_PAST) && Plausible(E4, NEW_PAST)
    ensures E2.incomplete.Some? && |E2.incomplete.value.data| == 0 && !E2.availRead && C.FlushSafe(E2) && E3.writQ == [E]
    ensures E4.incomplete.None? && !E4.availRead
  {
  }

  lemma EmptySent()
    ensures R.Reachable(System(One(false, E4, NEW_PAST, [], []), EMPTY_NODE, [Pack(E)], []))
  {
    hide R.Reachable, UserWork, MsgCore.Write, PopWrit, RecvPack, Adds, One, Plausible, MsgCore.Fresh;
    WorkE();
    AllPlausible();
    PlausibleE();
    Opened();
    var s1 := System(One(false, A1, NEW_PAST, [], []), EMPTY_NODE, [], []);
    var s2 := s1.(a := One(false, E2, NEW_PAST, [], []));
    AddsNothing(A1, NEW_PAST, [], [], Start(E2), NEW_PAST);
    assert NEW_PAST.written + [] == NEW_PAST.written;
    DoUser(s1, true, A1, NEW_PAST, [], [], C.Write([]), Start(E2), NEW_PAST, [], [], s2);
    var s3 := s1.(a := One(false, E3, NEW_PAST, [], [1]));
    AddsTurn(E2, NEW_PAST, [], Start(E3).(push := 1));
    DoUser(s2, true, E2, NEW_PAST, [], [], C.Flush, Start(E3).(push := 1), NEW_PAST, [], [1], s3);
    DoSendPack(s3, true, E3, NEW_PAST, Start(E4), s1.(a := One(false, E4, NEW_PAST, [], []), ab := [Pack(E)]));
  }

  lemma EmptyArrived()
    ensures R.Reachable(System(One(false, E4, NEW_PAST, [], []), One(true, F1, THEIRS, [Resp(1, Ok)], []), [], []))
  {
    hide R.Reachable, UserWork, MsgCore.Write, PopWrit, RecvPack, Apply;
    EmptySent();
    WorkE();
    Lists();
    var s := System(One(false, E4, NEW_PAST, [], []), EMPTY_NODE, [Pack(E)], []);
    var b0 := Create(EMPTY_NODE, 1, 1, 0);
    assert b0 == One(true, MsgCore.Fresh(1, 1, 0), THEIRS, [], []);
    var w := Start(F1).(emit := [Ok]);
    WorkOn(true, MsgCore.Fresh(1, 1, 0), THEIRS, [], [], w, C.Absorb(EndOf(b0, 1), w));
    Go(s, false, Recv(1), System(One(false, E4, NEW_PAST, [], []), One(true, F1, THEIRS, [Resp(1, Ok)], []), [], []));
  }

  /** The first switch wrote nothing, flushed, and then wrote a byte. */
  function Hollow(): System { System(One(false, E5, OURS, [], []), One(true, F1, THEIRS, [Resp(1, Ok)], []), [], []) }

  /** The reader gets a 0, which its callers take for the end, from a message that both ends have open and that
      has a byte to come. */
  lemma ZeroBeforeEnd(size: nat)
    requires size > 0
    ensures R.Reachable(Hollow())
    ensures var s := R.Side(Hollow(), false); var (m, peer) := (s.a.sw.msgs[1], s.b.sw.msgs[1]);
      && Reading(m) && MsgCore.Read(m, size).1 == Count(0)
      && !m.closed && !m.discon && !peer.closed && !peer.discon
      && s.b.past[1].written == [7] && s.a.past[1].delivered == []
  {
    WasHollow();
    EmptyReads(size);
    hide R.Reachable, MsgCore.Read;
  }

  lemma EmptyReads(size: nat)
    requires size > 0
    ensures Reading(F1) && MsgCore.Read(F1, size).1 == Count(0)
  {
    var w := Start(F1);
    assert NextChunk(w, size) == 0 && ReadPart(w, size) == [];
    assert Advance(w, 0) == w && [E][1..] == [];
    assert !PopRead(w).m.availRead;
    assert ReadLoop(w, size, []).1 == [] + [];
  }

  lemma WasHollow()
    ensures R.Reachable(Hollow())
  {
    hide R.Reachable, UserWork, MsgCore.Write, PopWrit, RecvPack, Adds, One, Plausible, MsgCore.Fresh;
    EmptyArrived();
    WorkE();
    PlausibleE();
    AddsNothing(E4, NEW_PAST, [], [], Start(E5), OURS);
    assert NEW_PAST.written + [7] == [7];
    DoUser(System(One(false, E4, NEW_PAST, [], []), One(true, F1, THEIRS, [Resp(1, Ok)], []), [], []), true, E4, NEW_PAST, [], [],
           C.Write([7]), Start(E5), OURS, [], [], Hollow());
  }
}
