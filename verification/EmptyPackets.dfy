/** When a read returns no bytes. Its callers take a 0 for the end of the message; so it is, unless an empty
    packet was sent, and no packet is empty unless somebody wrote nothing into a message that had no half
    filled packet. */
module EmptyPackets {
  import opened MsgCore
  import opened MsgFacts
  import opened TwoSwitches
  import C = Conversation
  import R = Runs
  import S = Steps

  /** What a read of an open message returns 0 for: the end, or packets without a byte. */
  lemma ZeroRead(t: System, first: bool, n: nat, size: nat)
    requires R.Reachable(t) && n in R.Side(t, first).a.sw.msgs && !R.Side(t, first).a.sw.msgs[n].closed && size > 0
    ensures var m := R.Side(t, first).a.sw.msgs[n];
      && (m.availRead ==> Reading(m))
      && (MsgCore.Read(m, size).1 == Count(0) <==>
          (m.discon && m.readQ == []) || (m.readQ != [] && m.Unread() == []))
  {
    hide R.Reachable, Inv, MsgOk, MsgCore.Read, Msg.Unread;
    var s := R.Side(t, first);
    R.Always(t);
    S.OkAt(s, n);
    ReadReturns(s.a.sw.msgs[n], StampOf(s.a, n), size);
  }

  lemma ReadReturns(m: Msg, h: int, size: nat)
    requires MsgOk(m, h) && !m.closed && size > 0
    ensures m.availRead ==> Reading(m)
    ensures MsgCore.Read(m, size).1 == Count(0) <==> (m.discon && m.readQ == []) || (m.readQ != [] && m.Unread() == [])
  {
    hide ReadLoop, Msg.Unread;
    ReadFacts(m, h, size);
  }

  // ---------- packets with bytes in them ----------

  predicate Filled(q: seq<Packet>) { forall p | p in q :: p.data != [] }

  predicate QueuesFull(m: Msg) {
    && Filled(m.writQ) && Filled(m.readQ)
    && (m.readQ != [] ==> m.readPos < |m.readQ[0].data|)
  }

  predicate HasBytes(m: Msg) { QueuesFull(m) && (m.incomplete.Some? ==> m.incomplete.value.data != []) }

  lemma StatusKeeps(w: Work)
    ensures var m := UpdateStatus(w).m;
      && m.writQ == w.m.writQ && m.readQ == w.m.readQ && m.readPos == w.m.readPos && m.incomplete == w.m.incomplete
      && m.availRead == w.m.availRead
  {
  }

  lemma PushKeeps(w: Work)
    requires HasBytes(w.m) && w.m.incomplete.Some?
    ensures HasBytes(PushWrit(w).m) && PushWrit(w).m.incomplete.None?
  {
    hide UpdateStatus;
    StatusKeeps(w.(m := PushedWrit(w.m)));
  }

  lemma FlushKeeps(w: Work)
    requires HasBytes(w.m)
    ensures HasBytes(FlushOpen(w).m)
  {
    hide PushWrit, HasBytes;
    if w.m.incomplete.Some? { PushKeeps(w); }
  }

  lemma PopWritKeeps(w: Work)
    requires HasBytes(w.m) && w.m.writQ != []
    ensures HasBytes(PopWrit(w).m)
  {
    hide UpdateStatus;
    StatusKeeps(w.(m := PoppedWrit(w.m)));
    assert forall p | p in w.m.writQ[1..] :: p in w.m.writQ;
  }

  lemma PopReadKeeps(w: Work)
    requires Filled(w.m.readQ) && Filled(w.m.writQ) && w.m.readQ != []
    requires w.m.incomplete.Some? ==> w.m.incomplete.value.data != []
    ensures HasBytes(PopRead(w).m)
  {
    hide UpdateStatus;
    StatusKeeps(w.(m := PoppedRead(w.m)));
    assert forall p | p in w.m.readQ[1..] :: p in w.m.readQ;
    if |w.m.readQ| > 1 { assert w.m.readQ[1] in w.m.readQ; }
  }

  lemma {:induction false} FillKeeps(w: Work, data: Bytes)
    requires Filling(w) && QueuesFull(w.m) && (data != [] || HasBytes(w.m))
    ensures HasBytes(Fill(w, data).m)
    decreases |data|
  {
    hide PushWrit, QueuesFull, HasBytes, PacketNew;
    if data != [] {
      var w1 := MakeRoom(w);
      var n := ChunkSize(w1, data);
      RoomKeeps(w);
      PutKeeps(w1, data[..n]);
      FullIs(Put(w1, data[..n]).m);
      FillKeeps(Put(w1, data[..n]), data[n..]);
    }
  }

  lemma PutKeeps(w: Work, chunk: Bytes)
    requires QueuesFull(w.m) && w.m.incomplete.Some? && chunk != []
    ensures HasBytes(Put(w, chunk).m)
  {
    hide QueuesFull;
    SameFull(w.m, Put(w, chunk).m);
  }

  lemma RoomKeeps(w: Work)
    requires Filling(w) && QueuesFull(w.m)
    ensures QueuesFull(MakeRoom(w).m)
  {
    hide PacketNew, QueuesFull;
    if |w.m.incomplete.value.data| == PACK_DATA_SIZE {
      assert w.m.incomplete.value.data != [];
      PacketKeeps(w);
    }
  }

  lemma PacketKeeps(w: Work)
    requires HasBytes(w.m)
    ensures QueuesFull(PacketNew(w).m)
  {
    hide PushWrit;
    if w.m.incomplete.Some? { PushKeeps(w); }
  }

  lemma SameFull(m: Msg, n: Msg)
    requires m.writQ == n.writQ && m.readQ == n.readQ && m.readPos == n.readPos && QueuesFull(m)
    ensures QueuesFull(n)
  {
  }

  lemma FullIs(m: Msg)
    requires HasBytes(m)
    ensures QueuesFull(m)
  {
  }

  lemma WriteKeeps(m: Msg, data: Bytes)
    requires m.incomplete.Some? ==> |m.incomplete.value.data| <= PACK_DATA_SIZE
    requires HasBytes(m) && !OpensEmpty(m, data)
    ensures HasBytes(MsgCore.Write(m, data).0.m)
  {
    hide Fill;
    if MsgCore.Write(m, data).1.Count? {
      FillKeeps(if m.incomplete.None? then PacketNew(Start(m)) else Start(m), data);
    }
  }

  /** Nothing is written into a message that takes it and has no half filled packet. */
  predicate OpensEmpty(m: Msg, data: Bytes)
    requires m.incomplete.Some? ==> |m.incomplete.value.data| <= PACK_DATA_SIZE
  {
    data == [] && m.incomplete.None? && MsgCore.Write(m, data).1.Count?
  }

  lemma StepReads(w: Work, size: nat)
    requires Reading(w.m) && HasBytes(w.m) && size > 0
    ensures HasBytes(ReadStep(w, size).0.m)
  {
    hide PopRead;
    var w1 := Advance(w, NextChunk(w, size));
    if w1.m.readPos == |w1.m.readQ[0].data| { PopReadKeeps(w1); }
  }

  lemma {:induction false} ReadKeeps(w: Work, size: nat, got: Bytes)
    requires Reading(w.m) && HasBytes(w.m)
    ensures HasBytes(ReadLoop(w, size, got).0.m)
    decreases |w.m.readQ|, size
  {
    hide ReadStep, NextChunk, ReadPart, HasBytes;
    if size > 0 {
      StepReads(w, size);
      if ReadStep(w, size).1 {
        ReadKeeps(ReadStep(w, size).0, size - NextChunk(w, size), got + ReadPart(w, size));
      }
    }
  }

  lemma {:induction false} DrainReadKeeps(w: Work)
    requires HasBytes(w.m) && (w.m.availRead ==> w.m.readQ != [])
    requires !w.m.availRead || |w.m.readQ| >= 1
    ensures HasBytes(DrainRead(w).m)
    decreases |w.m.readQ|
  {
    hide PopRead;
    if w.m.availRead {
      PopReadKeeps(w);
      PopReadAvail(w);
      DrainReadKeeps(PopRead(w));
    }
  }

  lemma PopReadAvail(w: Work)
    requires w.m.readQ != []
    ensures var m := PopRead(w).m; (m.availRead ==> m.readQ != []) && |m.readQ| < |w.m.readQ|
  {
  }

  lemma {:induction false} DrainWritKeeps(w: Work)
    requires HasBytes(w.m) && (w.m.availWrit ==> w.m.writQ != [])
    ensures HasBytes(DrainWrit(w).m)
    decreases |w.m.writQ|
  {
    hide PopWrit;
    if w.m.availWrit {
      PopWritKeeps(w);
      PopWritAvail(w);
      DrainWritKeeps(PopWrit(w));
    }
  }

  lemma PopWritAvail(w: Work)
    requires w.m.writQ != []
    ensures var m := PopWrit(w).m; (m.availWrit ==> m.writQ != []) && |m.writQ| < |w.m.writQ|
  {
  }

  lemma CloseKeeps(m: Msg)
    requires HasBytes(m) && (!m.closed && m.availRead ==> m.readQ != [])
    ensures HasBytes(MsgCore.Close(m).0.m)
  {
    hide DrainRead, PushWrit;
    if !m.closed && !m.discon {
      FlushKeeps(Start(m));
      FlushReads(m);
      var w := FlushOpen(Start(m));
      var w1 := w.(m := w.m.(closed := true));
      DrainReadKeeps(if !w1.m.availWrit then Disconnect(w1) else w1);
    }
  }

  lemma FlushReads(m: Msg)
    ensures var w := FlushOpen(Start(m)); w.m.readQ == m.readQ && w.m.availRead == m.availRead
  {
    hide UpdateStatus;
    if m.incomplete.Some? { StatusKeeps(Start(PushedWrit(m))); }
  }

  lemma UserKeeps(m: Msg, act: C.Act)
    requires UserAct(act) && HasBytes(m)
    requires act.Write? && m.incomplete.Some? ==> |m.incomplete.value.data| <= PACK_DATA_SIZE
    requires act.Write? ==> !OpensEmpty(m, act.data)
    requires act.Read? && !m.closed && m.availRead ==> Reading(m)
    requires act.Close? && !m.closed && m.availRead ==> m.readQ != []
    ensures HasBytes(UserWork(m, act).m)
  {
    hide MsgCore.Write, ReadLoop, MsgCore.Close, FlushOpen;
    match act
    case Write(data) => WriteKeeps(m, data);
    case Read(size) => if !m.closed && m.availRead { ReadKeeps(Start(m), size, []); }
    case Close => CloseKeeps(m);
    case Flush => FlushKeeps(Start(m));
    case Accept =>
  }

  lemma RecvPackKeeps(m: Msg, p: Packet)
    requires HasBytes(m) && p.data != [] && (m.readQ == [] ==> m.readPos == 0)
    ensures HasBytes(RecvPack(m, p).m)
  {
    hide UpdateStatus;
    StatusKeeps(Start(PushedRead(m, p)));
  }

  lemma RecvRespKeeps(m: Msg, st: Status)
    requires HasBytes(m) && (m.availWrit ==> m.writQ != []) && RespExpected(m, st)
    ensures HasBytes(RecvResp(m, st).m)
  {
    hide DrainWrit, RecvOk;
    if st.Discon? {
      if !m.sentDiscon && m.availRead {
        var w := Disconnect(Start(m));
        DrainWritKeeps(w.(m := w.m.(discon := true, imsgid := 0)));
      }
    } else {
      RecvOkKeeps(Start(m.(waiting := false)));
    }
  }

  lemma RecvOkKeeps(w: Work)
    requires HasBytes(w.m)
    ensures HasBytes(RecvOk(w).m)
  {
    hide UpdateStatus, FlushOpen;
    FlushKeeps(w);
    var w1 := if !w.m.availWrit && !w.m.closed then FlushOpen(w) else w;
    StatusKeeps(if !w.m.availWrit && !w1.m.availWrit && w1.m.closed then Disconnect(w1) else w1);
  }

  // ---------- one step, and whole runs ----------

  ghost predicate Whole(nd: Node, out: seq<Frame>) {
    && (forall n | n in nd.sw.msgs :: HasBytes(nd.sw.msgs[n]))
    && (forall f | f in out :: f.Pack? ==> f.p.data != [])
  }

  /** Nobody writes nothing into a message that takes it and has no half filled packet. */
  predicate Substantial(s: System, mv: Move)
    requires Possible(s, mv) && Safe(s, mv)
  {
    mv.User? && mv.act.Write? ==> !OpensEmpty(s.a.sw.msgs[mv.n], mv.act.data)
  }

  lemma CameWhole(s: System, mv: Move, k: nat, m: Msg)
    requires Inv(s) && Enabled(s, mv) && Safe(s, mv) && Substantial(s, mv) && Whole(s.a, s.ab) && Whole(s.b, s.ba)
    requires S.Came(s, mv, k, m)
    ensures HasBytes(m)
  {
    hide Inv, HasBytes, UserWork, PopWrit, RecvPack, RecvResp, RespExpected, OpensEmpty;
    if k in s.a.sw.msgs && m == s.a.sw.msgs[k] { return; }
    match mv
    case Open(id, typ) => FreshHas(id, 0, typ);
    case Retire(n) =>
    case User(n, act) => UserKeeps(s.a.sw.msgs[n], act);
    case Send => PopWritKeeps(Start(s.a.sw.msgs[k]));
    case Recv(newId) =>
      if s.ba[0].Pack? {
        var p := s.ba[0].p;
        assert s.ba[0] in s.ba;
        FreshHas(newId, if p.msgid < 0 then -p.msgid else 0, p.typ);
        if Lookup(s.a.sw, p.msgid).Some? { PosZero(s, Lookup(s.a.sw, p.msgid).value); }
        RecvPackKeeps(S.Target(s, newId, p).1, p);
      } else {
        RecvRespKeeps(s.a.sw.msgs[k], s.ba[0].st);
      }
  }

  lemma FreshHas(id: nat, origin: nat, typ: int)
    ensures HasBytes(MsgCore.Fresh(id, origin, typ)) && HasBytes(MsgCore.Fresh(id, origin, typ).(connected := true))
  {
  }

  lemma PosZero(s: System, n: nat)
    requires Inv(s) && n in s.a.sw.msgs
    ensures s.a.sw.msgs[n].readQ == [] ==> s.a.sw.msgs[n].readPos == 0
  {
    hide Inv;
    S.OkAt(s, n);
  }

  lemma StepWhole(s: System, mv: Move)
    requires Inv(s) && Enabled(s, mv) && Safe(s, mv) && Substantial(s, mv) && Whole(s.a, s.ab) && Whole(s.b, s.ba)
    ensures var t := Step(s, mv); Whole(t.a, t.ab) && Whole(t.b, t.ba)
  {
    hide Inv, Guarded, Step, Lookup, C.Safe, RespExpected, HasBytes, Substantial;
    var t := Step(s, mv);
    S.StepRest(s, mv);
    forall n | n in t.a.sw.msgs ensures HasBytes(t.a.sw.msgs[n]) {
      S.StepCame(s, mv, n);
      CameWhole(s, mv, n, t.a.sw.msgs[n]);
    }
    forall f | f in t.ab ensures f.Pack? ==> f.p.data != [] {
      S.StepSent(s, mv, f);
      if f.Pack? && f !in s.ab {
        R.RespsOnly(s);
        HeadHas(s.a.sw.msgs[s.a.sw.pend[0]]);
      }
    }
  }

  lemma HeadHas(m: Msg)
    requires HasBytes(m) && m.writQ != []
    ensures m.writQ[0].data != []
  {
    assert m.writQ[0] in m.writQ;
  }

  /** A run in which nobody does so. */
  ghost predicate SubstantialRun(s: System, run: seq<R.Event>, t: System)
    decreases |run|
  {
    if run == [] then s == t
    else
      var s0 := R.Side(s, run[0].first);
      Enabled(s0, run[0].mv) && Safe(s0, run[0].mv) && Substantial(s0, run[0].mv) &&
      SubstantialRun(R.Side(Step(s0, run[0].mv), run[0].first), run[1..], t)
  }

  lemma {:induction false} RunWhole(s: System, run: seq<R.Event>, t: System)
    requires Inv(s) && SubstantialRun(s, run, t) && Whole(s.a, s.ab) && Whole(s.b, s.ba)
    ensures Inv(t) && Whole(t.a, t.ab) && Whole(t.b, t.ba)
    decreases |run|
  {
    hide Inv, Whole, Substantial, Possible, Guarded, Safe, Step;
    if run != [] {
      var s0 := R.Side(s, run[0].first);
      SwapInv(s);
      TwoSwitches.StepKeeps(s0, run[0].mv);
      SwapInv(Step(s0, run[0].mv));
      StepWhole(s0, run[0].mv);
      RunWhole(R.Side(Step(s0, run[0].mv), run[0].first), run[1..], t);
    }
  }

  lemma {:induction false} IsRun(s: System, run: seq<R.Event>, t: System)
    requires SubstantialRun(s, run, t)
    ensures R.Reaches(s, run, t)
    decreases |run|
  {
    hide Substantial, Possible, Guarded, Safe, Step;
    if run != [] {
      var s0 := R.Side(s, run[0].first);
      IsRun(R.Side(Step(s0, run[0].mv), run[0].first), run[1..], t);
    }
  }

  /** In such a run a read returns 0 exactly at the end of the message, and then every byte that the peer
      wrote has been delivered. */
  lemma ZeroIsEnd(run: seq<R.Event>, t: System, first: bool, n: nat, size: nat)
    requires SubstantialRun(START, run, t)
    requires n in R.Side(t, first).a.sw.msgs && !R.Side(t, first).a.sw.msgs[n].closed && size > 0
    ensures var s := R.Side(t, first); var m := s.a.sw.msgs[n];
      && n in s.a.past && (m.availRead ==> Reading(m))
      && (MsgCore.Read(m, size).1 == Count(0) <==> m.discon && m.readQ == [])
      && (MsgCore.Read(m, size).1 == Count(0) ==> s.a.past[n].delivered == R.Peer(s, n).written)
  {
    hide R.Reachable, Inv, HasBytes, MsgCore.Read, SubstantialRun;
    StartInv();
    StartWhole();
    RunWhole(START, run, t);
    IsRun(START, run, t);
    ReachedIs(run, t);
    ZeroRead(t, first, n, size);
    var s := R.Side(t, first);
    if s.a.sw.msgs[n].readQ != [] { SomeUnread(s.a.sw.msgs[n]); }
    R.LiveIsPast(t, first, n);
    if s.a.sw.msgs[n].discon { R.DisconnectedHasAll(t, first, n); NothingUnread(s.a.sw.msgs[n]); }
  }

  lemma ReachedIs(run: seq<R.Event>, t: System)
    requires R.Reaches(START, run, t)
    ensures R.Reachable(t)
  {
    hide R.Reaches;
  }

  lemma SomeUnread(m: Msg)
    requires HasBytes(m) && m.readQ != []
    ensures m.Unread() != []
  {
  }

  lemma NothingUnread(m: Msg)
    ensures m.readQ == [] ==> m.Unread() == []
  {
  }

  lemma StartWhole()
    ensures Whole(START.a, START.ab) && Whole(START.b, START.ba)
  {
  }
}
