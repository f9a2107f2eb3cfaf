/** When the id of a message that is gone can be given out again without meeting the message's past: once no
    packet of it is under way, its peer owes it no acknowledgement and none is on its way, nothing more ever comes. */
module LateAcks {
  import opened MsgCore
  import opened MsgFacts
  import opened TwoSwitches
  import C = Conversation
  import R = Runs
  import S = Steps

  /** The acknowledgements that message n can still expect: 0 or 1. */
  function Due(s: System, n: nat): nat
    requires n in s.a.past
  {
    C.Tokens(R.Peer(s, n), R.OnTheWay(s, StampOf(s.a, n)), R.OnTheWay(Swap(s), -StampOf(s.a, n)))
  }

  /** The message whose frames the first switch stamps h is gone there, and no acknowledgement is due. */
  predicate Settled(s: System, h: int) {
    && EndAt(s.a, h).stage.Gone? && C.Need(EndAt(s.b, -h)) == 0
    && (forall f | f in s.ab :: f.Pack? ==> Key(f) != h)
    && Resp(-h, Ok) !in s.ba + s.b.sw.resps
  }

  // ---------- counting ----------

  lemma {:induction false} PacksAre(fs: seq<Frame>, h: int)
    ensures C.NPack(Sel(fs, h)) == 0 <==> forall f | f in fs :: f.Pack? ==> Key(f) != h
  {
    if fs != [] {
      var r := Sel(fs[1..], h);
      PacksAre(fs[1..], h);
      SelSplits(fs, h);
      if Key(fs[0]) == h { C.HeadCounts(Sel(fs, h)); }
      assert fs == [fs[0]] + fs[1..];
    }
  }

  lemma {:induction false} OksAre(fs: seq<Frame>, h: int)
    ensures C.NOk(Sel(fs, h)) == 0 <==> Resp(h, Ok) !in fs
  {
    if fs != [] {
      var r := Sel(fs[1..], h);
      OksAre(fs[1..], h);
      SelSplits(fs, h);
      if Key(fs[0]) == h { C.HeadCounts(Sel(fs, h)); }
      assert fs == [fs[0]] + fs[1..];
    }
  }

  lemma SelSplits(fs: seq<Frame>, h: int)
    requires fs != []
    ensures Key(fs[0]) == h ==> Sel(fs, h) != [] && Sel(fs, h)[0] == Bare(fs[0]) && Sel(fs, h)[1..] == Sel(fs[1..], h)
    ensures Key(fs[0]) != h ==> Sel(fs, h) == Sel(fs[1..], h)
  {
    var r := Sel(fs[1..], h);
    assert [] + r == r && ([Bare(fs[0])] + r)[1..] == r;
  }

  lemma SettledIs(s: System, n: nat)
    requires Inv(s) && n in s.a.past && n !in s.a.sw.msgs
    ensures Due(s, n) == 0 <==> Settled(s, StampOf(s.a, n))
  {
    hide Inv, Sel, C.NPack, C.NOk, EndAt;
    var h := StampOf(s.a, n);
    R.RespsOnly(s);
    ActiveStamp(s, n);
    PacksAre(s.ab + s.a.sw.resps, h);
    OksAre(s.ba + s.b.sw.resps, -h);
    assert forall f | f in s.ab + s.a.sw.resps :: f in s.ab || f in s.a.sw.resps;
    assert forall f | f in s.ab :: f in s.ab + s.a.sw.resps;
  }

  // ---------- a message that owes nothing answers with nothing ----------

  predicate Quiet(m: Msg) { !m.needResp || m.discon }

  lemma {:induction false} NoOk(e: seq<Status>)
    requires CountOk(e) == 0
    ensures Ok !in e
  {
    if e != [] { NoOk(e[1..]); }
  }

  predicate QuietWork(w: Work) { Ok !in w.emit && (w.freed || Quiet(w.m)) }

  lemma DisconQuiet(m: Msg, w: Work)
    requires m.discon && Conforms(m, w)
    ensures QuietWork(w)
  {
  }

  lemma UserQuiet(m: Msg, h: int, act: C.Act)
    requires MsgOk(m, h) && UserAct(act) && (act.Flush? ==> C.FlushSafe(m)) && Quiet(m)
    requires act.Write? && m.incomplete.Some? ==> |m.incomplete.value.data| <= PACK_DATA_SIZE
    requires act.Read? && !m.closed && m.availRead ==> Reading(m)
    requires act.Close? && !m.closed && m.availRead ==> m.readQ != []
    ensures QuietWork(UserWork(m, act))
  {
    hide MsgOk, MsgCore.Write, MsgCore.Read, FlushOpen, MsgCore.Close, Flat;
    if m.discon {
      UserConforms(m, h, act);
      DisconQuiet(m, UserWork(m, act));
    } else {
      match act
      case Write(data) => WriteFacts(m, h, data);
      case Read(size) => ReadFacts(m, h, size); NoOk(MsgCore.Read(m, size).0.emit);
      case Flush => if !m.closed { FlushFacts(m, h); }
      case Accept =>
      case Close => if !m.closed { CloseFacts(m, h); } else { ClosedTwice(m); }
    }
  }

  lemma ClosedTwice(m: Msg)
    requires m.closed
    ensures MsgCore.Close(m).0 == Start(m)
  {
  }

  lemma PopQuiet(m: Msg, h: int)
    requires MsgOk(m, h) && m.writing && Quiet(m)
    ensures QuietWork(PopWrit(Start(m)))
  {
    PopWritFacts(m, h);
    hide PopWrit, MsgOk;
  }

  lemma RespQuiet(m: Msg, h: int, st: Status)
    requires MsgOk(m, h) && RespExpected(m, st) && DrainSafeFor(m, st) && (m.discon ==> st.Ok?) && Quiet(m)
    ensures QuietWork(RecvResp(m, st))
  {
    hide PushWrit, DrainWrit, RecvOk;
    if m.sentDiscon {
      assert Clear(Start(m)).emit == [];
    } else if st.Ok? {
      RecvOkFacts(m, h);
    } else {
      RecvDisconFacts(m, h);
    }
  }

  // ---------- a step of the peer ----------

  /** The work of the peer's step on the message that the other switch stamps h. */
  lemma JobQuiet(u: System, mv: Move, h: int)
    requires Inv(u) && Enabled(u, mv) && Safe(u, mv) && Settled(Swap(u), h) && S.Doing(u, mv).Some?
    requires var n := S.Doing(u, mv).value.n; n in u.a.sw.msgs && n in u.a.past && StampOf(u.a, n) == -h
    requires !(mv.Recv? && Creates(u))
    ensures QuietWork(S.Doing(u, mv).value.w)
  {
    hide Inv, UserWork, PopWrit, RecvPack, RecvResp, RespExpected, MsgOk, DrainSafe, QuietWork, EndAt;
    var job := S.Doing(u, mv).value;
    S.OkAt(u, job.n);
    ActiveStamp(u, job.n);
    assert Quiet(u.a.sw.msgs[job.n]);
    match mv
    case User(n, act) => UserQuiet(u.a.sw.msgs[n], -h, act);
    case Send =>
      FirstMaySend(u);
      PopQuiet(u.a.sw.msgs[job.n], -h);
    case Recv(newId) => RecvQuiet(u, newId, h);
  }

  lemma RecvQuiet(u: System, newId: nat, h: int)
    requires Inv(u) && Enabled(u, Recv(newId)) && Safe(u, Recv(newId)) && S.Doing(u, Recv(newId)).Some? && !Creates(u)
    requires forall f | f in u.ba :: f.Pack? ==> Key(f) != h
    requires var n := S.Doing(u, Recv(newId)).value.n;
      && n in u.a.sw.msgs && n in u.a.past && StampOf(u.a, n) == -h && MsgOk(u.a.sw.msgs[n], -h) && Quiet(u.a.sw.msgs[n])
    ensures QuietWork(S.Doing(u, Recv(newId)).value.w)
  {
    hide Inv, RecvPack, RecvResp, RespExpected, MsgOk, DrainSafe, QuietWork, Conforms, C.Inv, Absorbed, Answered, Reaction;
    var f := u.ba[0];
    var n := Lookup(u.a.sw, Key(f)).value;
    RecvFoundWork(u, newId, n);
    assert f in u.ba;
    RespQuiet(u.a.sw.msgs[n], -h, f.st);
  }

  /** Who the work is done on: a message of the switch, under its own stamp until it is disconnected, or a new
      one under the stamp of the packet that creates it. */
  lemma JobIs(u: System, mv: Move)
    requires Inv(u) && Enabled(u, mv) && Safe(u, mv) && S.Doing(u, mv).Some?
    ensures var job := S.Doing(u, mv).value;
      if mv.Recv? && Creates(u) then job.n == mv.newId && job.before.Stamp() == -u.ba[0].p.msgid && u.ba[0].p.msgid < 0
      else
        && job.n in u.a.sw.msgs && job.n in u.a.past && job.before == u.a.sw.msgs[job.n]
        && (job.before.discon || job.before.Stamp() == StampOf(u.a, job.n))
  {
    hide Inv, UserWork, PopWrit, RecvPack, RecvResp, RespExpected, QueueOk, FlagsOk, DrainSafe;
    var job := S.Doing(u, mv).value;
    if !(mv.Recv? && Creates(u)) { S.OkAt(u, job.n); }
  }

  lemma JobAnswers(u: System, mv: Move, h: int)
    requires Inv(u) && Enabled(u, mv) && Safe(u, mv) && Settled(Swap(u), h) && S.Doing(u, mv).Some?
    ensures var job := S.Doing(u, mv).value; job.before.Stamp() == -h ==> Ok !in job.w.emit
  {
    hide Inv, S.Doing, Safe, Possible, Guarded, EndAt, Creates, Msg.Stamp;
    var job := S.Doing(u, mv).value;
    JobIs(u, mv);
    if mv.Recv? && Creates(u) {
      HeadKey(u);
    } else if job.before.discon {
      S.JobConforms(u, mv);
    } else if StampOf(u.a, job.n) == -h {
      JobQuiet(u, mv, h);
    }
  }

  lemma HeadKey(u: System)
    requires Creates(u)
    ensures u.ba[0] in u.ba && u.ba[0].Pack? && Key(u.ba[0]) == u.ba[0].p.msgid
  {
  }

  lemma {:induction false} InStamps(h0: int, e: seq<Status>, h: int, st: Status)
    requires Resp(h, st) in Stamps(h0, e)
    ensures h == h0 && st in e
  {
    if Stamps(h0, e)[0] != Resp(h, st) {
      assert Stamps(h0, e)[1..] == Stamps(h0, e[1..]);
      InStamps(h0, e[1..], h, st);
    }
  }

  /** The step answers with no acknowledgement for that message. */
  lemma NoAnswer(u: System, mv: Move, h: int)
    requires Inv(u) && Enabled(u, mv) && Safe(u, mv) && Settled(Swap(u), h)
    ensures Resp(-h, Ok) !in Step(u, mv).a.sw.resps
  {
    hide Inv, Step, S.Doing, Safe, Possible, Guarded, EndAt, Stamps, Msg.Stamp;
    if Resp(-h, Ok) in Step(u, mv).a.sw.resps {
      S.StepAnswers(u, mv, Resp(-h, Ok));
      assert Resp(-h, Ok) !in u.a.sw.resps;
      var job := S.Doing(u, mv).value;
      InStamps(job.before.Stamp(), job.w.emit, -h, Ok);
      JobAnswers(u, mv, h);
      assert false;
    }
  }

  /** A message of that stamp has it still, or has just got it. */
  lemma StampHeld(u: System, mv: Move, k: nat, h: int)
    requires Inv(u) && Enabled(u, mv) && Safe(u, mv) && !mv.Retire? && k in Step(u, mv).a.past && StampOf(Step(u, mv).a, k) == -h
    ensures (k in u.a.past && StampOf(u.a, k) == -h) || (mv.Open? && mv.id == k) || (mv == Recv(k) && Creates(u) && u.ba[0].p.msgid == h)
  {
    hide Inv, Step, StampOf, Safe, Guarded;
    S.StepRest(u, mv);
    if R.GivesOut(u, mv, k) {
      S.PastMade(u, mv, k);
    } else if k in u.a.past {
      S.PastKept(u, mv, k);
    }
  }

  lemma OldQuiet(u: System, k: nat, h: int)
    requires Inv(u) && Settled(Swap(u), h) && k in u.a.sw.msgs && k in u.a.past && StampOf(u.a, k) == -h
    ensures Quiet(u.a.sw.msgs[k])
  {
    hide Inv, EndAt;
    ActiveStamp(u, k);
  }

  /** The peer's record, if it has one after the step, still owes nothing. */
  lemma RecordQuiet(u: System, mv: Move, k: nat, h: int)
    requires Inv(u) && Enabled(u, mv) && Safe(u, mv) && !mv.Retire? && Settled(Swap(u), h)
    requires var t := Step(u, mv); k in t.a.past && k in t.a.sw.msgs && StampOf(t.a, k) == -h
    ensures Quiet(Step(u, mv).a.sw.msgs[k])
  {
    hide Inv, Step, UserWork, PopWrit, RecvPack, RecvResp, RespExpected, Possible, Guarded, Safe, EndAt, StampOf, Conforms;
    StampHeld(u, mv, k, h);
    S.StepCame(u, mv, k);
    if mv.Recv? && Creates(u) { HeadKey(u); }
    if S.Doing(u, mv).Some? { JobIs(u, mv); }
    if R.GivesOut(u, mv, k) { GivenIsNew(u, mv, k); }
    if k in u.a.sw.msgs && Step(u, mv).a.sw.msgs[k] == u.a.sw.msgs[k] {
      KnownOld(u, mv, k);
      OldQuiet(u, k, h);
    } else if mv.Open? {
    } else {
      JobQuiet(u, mv, h);
    }
  }

  lemma GivenIsNew(u: System, mv: Move, k: nat)
    requires Enabled(u, mv) && R.GivesOut(u, mv, k)
    ensures k !in u.a.past
  {
  }

  lemma KnownOld(u: System, mv: Move, k: nat)
    requires Inv(u) && Enabled(u, mv) && k in u.a.sw.msgs
    ensures k in u.a.past && !R.GivesOut(u, mv, k)
  {
    hide Inv;
    S.OkAt(u, k);
  }

  lemma IdStamp(nd: Node, h: int)
    requires Tables(nd) && Known(nd, h) && h != 0
    ensures IdOf(nd, h) in nd.past && StampOf(nd, IdOf(nd, h)) == h
  {
    hide Entry;
  }

  /** The conversation whose frames the mover stamps h is the one that is forgotten. */
  predicate Forgets(s: System, mv: Move, h: int) { mv.Retire? && mv.n in s.a.past && StampOf(s.a, mv.n) == h }

  lemma RetireIs(s: System, n: nat, h: int)
    requires Inv(s) && Enabled(s, Retire(n)) && !Forgets(s, Retire(n), h)
    ensures Safe(s, Retire(n))
    ensures var t := Step(s, Retire(n));
      && EndAt(t.a, h) == EndAt(s.a, h) && EndAt(t.b, -h) == EndAt(s.b, -h)
      && t.ab == s.ab && t.ba == s.ba && t.a.sw == s.a.sw && t.b.sw == s.b.sw
  {
    hide C.Inv, View, Routed, Sel, EndAt, Forgotten, Known;
    var h1 := StampOf(s.a, n);
    ForgottenEnds(s.a, h1, h);
    ForgottenEnds(s.b, -h1, -h);
    ForgottenSwitch(s.a, h1);
    ForgottenSwitch(s.b, -h1);
  }

  lemma PeerStep(u: System, mv: Move, h: int)
    requires Inv(u) && Enabled(u, mv) && Safe(u, mv) && Settled(Swap(u), h) && h != 0 && !Forgets(u, mv, -h)
    requires Inv(Step(u, mv))
    ensures Settled(Swap(Step(u, mv)), h)
  {
    hide Inv, Step, Safe, Possible, Guarded, EndAt, Forgets, S.Doing;
    var t := Step(u, mv);
    if mv.Retire? {
      RetireIs(u, mv.n, -h);
    } else {
      S.StepRest(u, mv);
      NoAnswer(u, mv, h);
      NotSent(u, mv, h);
      PeerNeeds(u, mv, h);
    }
  }

  lemma NotSent(u: System, mv: Move, h: int)
    requires Possible(u, mv) && Safe(u, mv) && Settled(Swap(u), h)
    ensures Resp(-h, Ok) !in Step(u, mv).ab
  {
    hide Step, Safe, Possible, EndAt;
    if Resp(-h, Ok) in Step(u, mv).ab {
      S.StepSent(u, mv, Resp(-h, Ok));
      assert false;
    }
  }

  lemma PeerNeeds(u: System, mv: Move, h: int)
    requires Inv(u) && Enabled(u, mv) && Safe(u, mv) && Settled(Swap(u), h) && h != 0 && !mv.Retire? && Inv(Step(u, mv))
    ensures C.Need(EndAt(Step(u, mv).a, -h)) == 0
  {
    hide Step, Safe, Possible, Guarded, Settled, C.Inv, View, Routed, StampOf, Known;
    var t := Step(u, mv);
    if Known(t.a, -h) && IdOf(t.a, -h) in t.a.sw.msgs {
      IdStamp(t.a, -h);
      RecordQuiet(u, mv, IdOf(t.a, -h), h);
    }
  }

  // ---------- a step of the switch where the message is gone ----------

  lemma OwnStep(s: System, mv: Move, h: int)
    requires Inv(s) && Enabled(s, mv) && Safe(s, mv) && Settled(s, h) && h != 0 && !Forgets(s, mv, h)
    requires Inv(Step(s, mv))
    ensures Settled(Step(s, mv), h)
  {
    hide Inv, Step, Safe, Possible, Guarded, EndAt, Forgets, S.Doing;
    var t := Step(s, mv);
    if mv.Retire? {
      RetireIs(s, mv.n, h);
    } else {
      S.StepRest(s, mv);
      StaysGone(s, mv, h);
      forall f | f in t.ab ensures f.Pack? ==> Key(f) != h { NoPacket(s, mv, h, f); }
    }
  }

  lemma GoneIs(s: System, h: int)
    requires Inv(s) && EndAt(s.a, h).stage.Gone? && h != 0
    ensures Tables(s.a) && Known(s.a, h) && var n := IdOf(s.a, h); n in s.a.past && n !in s.a.sw.msgs && StampOf(s.a, n) == h
  {
    hide C.Inv, View, Routed;
    IdStamp(s.a, h);
  }

  lemma StaysGone(s: System, mv: Move, h: int)
    requires Inv(s) && Enabled(s, mv) && Safe(s, mv) && Settled(s, h) && h != 0 && !mv.Retire? && Inv(Step(s, mv))
    ensures EndAt(Step(s, mv).a, h).stage.Gone?
  {
    hide Inv, Step, UserWork, PopWrit, RecvPack, RecvResp, RespExpected, Possible, Guarded, Safe, StampOf, C.Need;
    var t := Step(s, mv);
    GoneIs(s, h);
    var n := IdOf(s.a, h);
    if R.GivesOut(s, mv, n) { GivenIsNew(s, mv, n); }
    S.PastKept(s, mv, n);
    if n in t.a.sw.msgs {
      S.StepCame(s, mv, n);
      if S.Doing(s, mv).Some? { JobIs(s, mv); }
    }
    GoneAt(t, n, h);
  }

  lemma GoneAt(t: System, n: nat, h: int)
    requires Inv(t) && n in t.a.past && n !in t.a.sw.msgs && StampOf(t.a, n) == h
    ensures EndAt(t.a, h).stage.Gone?
  {
    hide C.Inv, View, Routed, StampOf;
    StampNames(t.a, n, 0);
  }

  lemma NoPacket(s: System, mv: Move, h: int, f: Frame)
    requires Inv(s) && Enabled(s, mv) && Safe(s, mv) && Settled(s, h) && h != 0 && f in Step(s, mv).ab
    ensures f.Pack? ==> Key(f) != h
  {
    hide Inv, Step, Possible, Guarded, EndAt, MsgOk, PopWrit;
    S.StepSent(s, mv, f);
    R.RespsOnly(s);
    GoneIs(s, h);
    if f.Pack? && f !in s.ab {
      FirstMaySend(s);
      var k := s.a.sw.pend[0];
      PopConforms(s.a.sw.msgs[k], StampOf(s.a, k));
      StampNames(s.a, k, h);
    }
  }

  // ---------- whole runs ----------

  /** A run in which the conversation that the switch named by `first` stamps h is not forgotten. */
  ghost predicate Lasts(s: System, run: seq<R.Event>, t: System, first: bool, h: int)
    decreases |run|
  {
    if run == [] then s == t
    else
      var s0 := R.Side(s, run[0].first);
      Enabled(s0, run[0].mv) && Safe(s0, run[0].mv) && !Forgets(s0, run[0].mv, if run[0].first == first then h else -h) &&
      Lasts(R.Side(Step(s0, run[0].mv), run[0].first), run[1..], t, first, h)
  }

  lemma EventSettled(s: System, e: R.Event, first: bool, h: int)
    requires Inv(s) && Inv(Swap(s)) && Settled(R.Side(s, first), h) && h != 0
    requires var s0 := R.Side(s, e.first); Enabled(s0, e.mv) && Safe(s0, e.mv) && !Forgets(s0, e.mv, if e.first == first then h else -h)
    ensures var t := R.Side(Step(R.Side(s, e.first), e.mv), e.first); Inv(t) && Inv(Swap(t)) && Settled(R.Side(t, first), h)
  {
    hide Inv, Settled, Possible, Guarded, Safe, Step, Forgets;
    var s0 := R.Side(s, e.first);
    TwoSwitches.StepKeeps(s0, e.mv);
    SwapInv(Step(s0, e.mv));
    if e.first == first { OwnStep(s0, e.mv, h); } else { PeerStep(s0, e.mv, h); }
  }

  lemma {:induction false} RunSettled(s: System, run: seq<R.Event>, t: System, first: bool, h: int)
    requires Inv(s) && Inv(Swap(s)) && Settled(R.Side(s, first), h) && h != 0 && Lasts(s, run, t, first, h)
    ensures Inv(t) && Inv(Swap(t)) && Settled(R.Side(t, first), h)
    decreases |run|
  {
    hide Inv, Settled, Possible, Guarded, Safe, Step, Forgets;
    if run != [] {
      EventSettled(s, run[0], first, h);
      RunSettled(R.Side(Step(R.Side(s, run[0].first), run[0].mv), run[0].first), run[1..], t, first, h);
    }
  }

  /** Once a message is gone and no acknowledgement is due to it, nothing is on its way to it, and nothing ever
      comes, whatever else happens, while its history is kept. */
  lemma Silence(t: System, run: seq<R.Event>, t1: System, first: bool, n: nat)
    requires R.Reachable(t) && var s := R.Side(t, first); n in s.a.past && n !in s.a.sw.msgs && Due(s, n) == 0
    requires Lasts(t, run, t1, first, StampOf(R.Side(t, first).a, n))
    ensures R.OnTheWay(Swap(R.Side(t1, first)), -StampOf(R.Side(t, first).a, n)) == []
  {
    hide R.Reachable, Inv, Settled, EndAt, Sel, C.Tokens, Due;
    var s := R.Side(t, first);
    var h := StampOf(s.a, n);
    R.Always(t);
    SettledIs(s, n);
    NotZero(s, n);
    RunSettled(t, run, t1, first, h);
    Stays(t1, first, h);
  }

  lemma NotZero(s: System, n: nat)
    requires Inv(s) && n in s.a.past
    ensures StampOf(s.a, n) != 0
  {
    hide C.Inv, View, Routed;
  }

  lemma Stays(t: System, first: bool, h: int)
    requires Inv(R.Side(t, first)) && Settled(R.Side(t, first), h) && h != 0
    ensures R.OnTheWay(Swap(R.Side(t, first)), -h) == []
  {
    hide Inv, Sel;
    var s := R.Side(t, first);
    GoneIs(s, h);
    ActiveStamp(s, IdOf(s.a, h));
    LateEnd(View(s, h));
    OksAre(s.ba + s.b.sw.resps, -h);
  }

  lemma LateEnd(c: C.Conv)
    requires C.Inv(c) && c.a.stage.Gone?
    ensures c.ba == [] || c.ba == [C.Resp(Ok)]
  {
    hide C.Flow;
    R.LateStream(c.a, c.b, c.ab, c.ba);
  }
}
