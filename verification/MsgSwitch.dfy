/** The switch itself: the operations of the message layer on mutable tables and queues, each proved
    to make exactly the step that the protocol of `TwoSwitches` allows it. */
module MsgSwitch {
  import opened MsgCore
  import opened MsgFacts
  import T = TwoSwitches
  import C = Conversation

  const FD_SETSIZE: nat := 1024

  /** The id `msg_get_avail_msgid` gives out. */
  ghost predicate LeastFree(msgs: map<nat, Msg>, id: nat) {
    id > 0 && id !in msgs && forall j | 0 < j < id :: j in msgs
  }

  lemma {:induction false} RepeatEnd(n: nat, k: nat)
    ensures T.Repeat(n, k + 1) == T.Repeat(n, k) + [n]
  {
    if k > 0 {
      RepeatEnd(n, k - 1);
    }
  }

  lemma {:induction false} StampsEnd(h: int, e: seq<Status>, st: Status)
    ensures T.Stamps(h, e + [st]) == T.Stamps(h, e) + [T.Resp(h, st)]
  {
    if e == [] {
      assert [st][1..] == [];
    } else {
      StampsEnd(h, e[1..], st);
      assert (e + [st])[0] == e[0] && (e + [st])[1..] == e[1..] + [st];
    }
  }

  /** A table without one entry. */
  function Drop<V>(m: map<nat, V>, x: nat): (r: map<nat, V>)
    ensures r.Keys <= m.Keys
  {
    map k | k in m && k != x :: m[k]
  }

  lemma ForgetIs(s0: T.Switch, id: nat, w: Work)
    requires id in s0.msgs && !w.freed && w.m.imsgid == s0.msgs[id].imsgid
    ensures var a := T.Apply(s0, id, w); var m := w.m.(imsgid := 0);
      T.Apply(s0, id, w.(m := m)) == a.(msgs := a.msgs[id := m], idmap := Drop(a.idmap, w.m.imsgid))
  {
    hide T.Stamps, T.Repeat, T.RemoveFirst;
    var a, b := T.Apply(s0, id, w), T.Apply(s0, id, w.(m := w.m.(imsgid := 0)));
    assert b.idmap == Drop(a.idmap, w.m.imsgid);
  }

  lemma FreeIs(s0: T.Switch, id: nat, w: Work)
    requires id in s0.msgs && !w.freed && w.m.imsgid == s0.msgs[id].imsgid
    ensures var a := T.Apply(s0, id, w);
      T.Apply(s0, id, w.(freed := true)) == a.(msgs := Drop(a.msgs, id), idmap := Drop(a.idmap, w.m.imsgid))
  {
    hide T.Stamps, T.Repeat, T.RemoveFirst;
    var a, b := T.Apply(s0, id, w), T.Apply(s0, id, w.(freed := true));
    assert b.idmap == Drop(a.idmap, w.m.imsgid);
    assert b.msgs == Drop(a.msgs, id);
  }

  class MsgSwitch {
    var msgs: map<nat, Msg>
    var idmap: map<nat, nat>
    var resps: seq<T.Frame>
    var pend: seq<nat>
    var armed: bool

    function State(): T.Switch
      reads this
    {
      T.Switch(msgs, idmap, resps, pend, armed)
    }

    constructor ()
      ensures Valid() && State() == T.EMPTY_SWITCH
    {
      msgs, idmap, resps, pend, armed := map[], map[], [], [], false;
    }

    predicate Valid()
      reads this
    {
      armed == (pend != [] || resps != []) && 0 !in idmap
    }

    /** The switch is where it was in state s0, after the work w on message id. */
    ghost predicate At(s0: T.Switch, id: nat, w: Work)
      reads this
    {
      && id in s0.msgs && !w.freed && id in msgs && Valid()
      && State() == T.Apply(s0, id, w)
    }

    // ---------- internal operations ----------

    /** Writing the fields of a message. */
    method Store(id: nat, m: Msg, ghost s0: T.Switch, ghost w: Work)
      requires At(s0, id, w) && (m.imsgid == 0 <==> w.m.imsgid == 0)
      modifies this`msgs
      ensures At(s0, id, w.(m := m)) && msgs[id] == m
    {
      msgs := msgs[id := m];
      assert msgs == s0.msgs[id := m];
    }

    method PushResp(id: nat, st: Status, ghost s0: T.Switch, ghost w: Work)
      requires At(s0, id, w) && msgs[id].Stamp() == s0.msgs[id].Stamp()
      modifies this`resps, this`armed
      ensures At(s0, id, w.(emit := w.emit + [st]))
    {
      resps, armed := resps + [T.Resp(msgs[id].Stamp(), st)], true;
      StampsEnd(s0.msgs[id].Stamp(), w.emit, st);
      assert s0.resps + T.Stamps(s0.msgs[id].Stamp(), w.emit) + [T.Resp(msgs[id].Stamp(), st)]
          == s0.resps + (T.Stamps(s0.msgs[id].Stamp(), w.emit) + [T.Resp(msgs[id].Stamp(), st)]);
    }

    method PushWritMsg(id: nat, ghost s0: T.Switch, ghost w: Work)
      requires At(s0, id, w)
      modifies this`pend, this`armed
      ensures At(s0, id, w.(push := w.push + 1))
    {
      RepeatEnd(id, w.push);
      pend, armed := pend + [id], true;
    }

    method SendResp(id: nat, st: Status, ghost s0: T.Switch, ghost w: Work)
      requires At(s0, id, w) && (st.Ok? ==> msgs[id].needResp) && msgs[id].Stamp() == s0.msgs[id].Stamp()
      modifies this
      ensures At(s0, id, MsgCore.SendResp(w, st))
    {
      PushResp(id, st, s0, w);
      if st.Ok? { Store(id, msgs[id].(needResp := false), s0, w.(emit := w.emit + [st])); }
    }

    method UpdateStatus(id: nat, ghost s0: T.Switch, ghost w: Work)
      requires At(s0, id, w) && (msgs[id].discon || msgs[id].Stamp() == s0.msgs[id].Stamp())
      modifies this
      ensures At(s0, id, MsgCore.UpdateStatus(w))
    {
      hide At;
      WorkMsg(s0, id, w);
      ghost var w1 := w;
      if msgs[id].needResp && msgs[id].spaceRead && !msgs[id].discon {
        SendResp(id, Ok, s0, w);
        w1 := MsgCore.SendResp(w, Ok);
        WorkMsg(s0, id, w1);
      }
      if msgs[id].availWrit && !(msgs[id].waiting || msgs[id].writing) {
        Store(id, msgs[id].(writing := true), s0, w1);
        PushWritMsg(id, s0, w1.(m := msgs[id]));
      }
    }

    lemma WorkMsg(s0: T.Switch, id: nat, w: Work)
      requires At(s0, id, w)
      ensures id in msgs && id in s0.msgs && msgs[id] == w.m && !w.freed
    {
    }

    method PushWritPacket(id: nat, ghost s0: T.Switch, ghost w: Work)
      requires At(s0, id, w) && msgs[id].incomplete.Some? && (msgs[id].discon || msgs[id].Stamp() == s0.msgs[id].Stamp())
      modifies this
      ensures At(s0, id, PushWrit(w))
    {
      hide At, MsgCore.UpdateStatus;
      WorkMsg(s0, id, w);
      var m := msgs[id];
      m := m.(writQ := m.writQ + [m.incomplete.value], incomplete := None, availWrit := true,
              spaceWrit := m.spaceWrit && |m.writQ| + 1 < N_BUFF_PACKETS);
      assert m == PushedWrit(msgs[id]);
      assert PushWrit(w) == MsgCore.UpdateStatus(w.(m := m));
      hide PushedWrit, PushWrit;
      Store(id, m, s0, w);
      UpdateStatus(id, s0, w.(m := m));
    }

    lemma PopIs(w: Work)
      requires w.m.writQ != []
      ensures PopWrit(w) == MsgCore.UpdateStatus(w.(m := PoppedWrit(w.m)))
      ensures var m := w.m;
        PoppedWrit(m) == m.(writQ := m.writQ[1..], waiting := true, writing := false,
          spaceWrit := m.spaceWrit || |m.writQ| - 1 < N_BUFF_PACKETS, availWrit := m.availWrit && |m.writQ| - 1 >= 1)
    {
      hide MsgCore.UpdateStatus;
    }

    method PopWritPacket(id: nat, ghost s0: T.Switch, ghost w: Work) returns (packet: Packet)
      requires At(s0, id, w) && msgs[id].writQ != [] && (msgs[id].discon || msgs[id].Stamp() == s0.msgs[id].Stamp())
      modifies this
      ensures At(s0, id, PopWrit(w)) && packet == w.m.writQ[0]
    {
      hide At, MsgCore.UpdateStatus, PoppedWrit, PopWrit;
      WorkMsg(s0, id, w);
      PopIs(w);
      var m := msgs[id];
      packet := m.writQ[0];
      m := m.(writQ := m.writQ[1..], waiting := true, writing := false,
              spaceWrit := m.spaceWrit || |m.writQ| - 1 < N_BUFF_PACKETS, availWrit := m.availWrit && |m.writQ| - 1 >= 1);
      Store(id, m, s0, w);
      UpdateStatus(id, s0, w.(m := m));
    }

    method PushReadPacket(id: nat, packet: Packet, ghost s0: T.Switch, ghost w: Work)
      requires At(s0, id, w) && (msgs[id].discon || msgs[id].Stamp() == s0.msgs[id].Stamp())
      modifies this
      ensures At(s0, id, PushRead(w, packet))
    {
      hide At, MsgCore.UpdateStatus;
      WorkMsg(s0, id, w);
      var m := msgs[id];
      var q := m.readQ;
      if !m.closed { q := q + [packet]; }
      assert PushedRead(m, packet) == Took(m, q);
      m := m.(nRead := m.nRead + 1, needResp := true, readQ := q, availRead := true,
              spaceRead := m.spaceRead && |q| < N_BUFF_PACKETS);
      assert m == Took(msgs[id], q);
      assert PushRead(w, packet) == MsgCore.UpdateStatus(w.(m := m));
      hide Took, PushRead;
      Store(id, m, s0, w);
      UpdateStatus(id, s0, w.(m := m));
    }

    lemma PoppedIs(m: Msg)
      requires m.readQ != []
      ensures PoppedRead(m) == m.(readQ := m.readQ[1..], readPos := 0,
        spaceRead := m.spaceRead || |m.readQ| - 1 < N_BUFF_PACKETS, availRead := m.availRead && |m.readQ| - 1 >= 1)
    {
    }

    method DropRead(id: nat, ghost s0: T.Switch, ghost w: Work)
      requires At(s0, id, w) && msgs[id].readQ != []
      modifies this`msgs
      ensures At(s0, id, w.(m := PoppedRead(w.m)))
    {
      hide At, PoppedRead;
      WorkMsg(s0, id, w);
      var m := msgs[id];
      PoppedIs(m);
      Store(id, m.(readQ := m.readQ[1..], readPos := 0,
                   spaceRead := m.spaceRead || |m.readQ| - 1 < N_BUFF_PACKETS,
                   availRead := m.availRead && |m.readQ| - 1 >= 1), s0, w);
    }

    method PopReadPacket(id: nat, ghost s0: T.Switch, ghost w: Work)
      requires At(s0, id, w) && msgs[id].readQ != [] && (msgs[id].discon || msgs[id].Stamp() == s0.msgs[id].Stamp())
      modifies this
      ensures At(s0, id, PopRead(w))
    {
      hide At, MsgCore.UpdateStatus;
      WorkMsg(s0, id, w);
      DropRead(id, s0, w);
      WorkMsg(s0, id, w.(m := PoppedRead(w.m)));
      UpdateStatus(id, s0, w.(m := PoppedRead(w.m)));
    }

    method Clear(id: nat, ghost s0: T.Switch, ghost w: Work)
      requires At(s0, id, w) && w.push == 0 && !w.drop
      modifies this
      ensures At(s0, id, MsgCore.Clear(w))
    {
      var m := msgs[id];
      if m.writing { Unschedule(id, s0, w); }
      hide At;
      WorkMsg(s0, id, w.(drop := m.writing));
      Store(id, m.(readQ := [], writQ := [], availRead := false, availWrit := false, spaceRead := false,
                   spaceWrit := false, waiting := false, writing := false, needResp := false), s0, w.(drop := m.writing));
    }

    /** `list_locate`: the first entry for id, or the length of the list. */
    static method Locate(q: seq<nat>, id: nat) returns (i: nat)
      ensures i <= |q| && (i == |q| <==> id !in q)
      ensures T.RemoveFirst(q, id) == if i < |q| then q[..i] + q[i + 1..] else q
    {
      i := 0;
      while i < |q| && q[i] != id
        invariant 0 <= i <= |q| && id !in q[..i]
        invariant T.RemoveFirst(q, id) == q[..i] + T.RemoveFirst(q[i..], id)
      {
        assert q[i..][1..] == q[i + 1..] && q[..i] + [q[i]] == q[..i + 1];
        i := i + 1;
      }
      assert i < |q| ==> q[i..][1..] == q[i + 1..];
      assert i == |q| ==> q[i..] == [] && q[..i] == q;
    }

    method Unschedule(id: nat, ghost s0: T.Switch, ghost w: Work)
      requires At(s0, id, w) && w.push == 0 && !w.drop
      modifies this`pend, this`armed
      ensures At(s0, id, w.(drop := true))
    {
      var i := Locate(pend, id);
      ListIs(s0.pend, id);
      hide T.RemoveFirst, T.Repeat, T.Stamps;
      if i < |pend| {
        pend := pend[..i] + pend[i + 1..];
        armed := pend != [] || resps != [];
      }
    }

    lemma ListIs(q: seq<nat>, id: nat)
      ensures q + T.Repeat(id, 0) == q && T.RemoveFirst(q, id) + T.Repeat(id, 0) == T.RemoveFirst(q, id)
    {
    }

    /** The switch after the work w on message id, which may be gone. */
    ghost predicate Done(s0: T.Switch, id: nat, w: Work)
      reads this
    {
      id in s0.msgs && Valid() && State() == T.Apply(s0, id, w)
    }

    method Free(id: nat, ghost s0: T.Switch, ghost w: Work)
      requires At(s0, id, w) && w.push == 0 && !w.drop && msgs[id].imsgid == s0.msgs[id].imsgid
      modifies this
      ensures Done(s0, id, MsgCore.Free(w))
    {
      hide T.Apply, Drop;
      WorkMsg(s0, id, w);
      Clear(id, s0, w);
      WorkMsg(s0, id, MsgCore.Clear(w));
      FreeIs(s0, id, MsgCore.Clear(w));
      var m := msgs[id];
      idmap := Drop(idmap, m.imsgid);
      msgs := Drop(msgs, id);
    }

    method PacketNew(id: nat, ghost s0: T.Switch, ghost w: Work)
      requires At(s0, id, w) && !msgs[id].discon && msgs[id].Stamp() == s0.msgs[id].Stamp()
      modifies this
      ensures At(s0, id, MsgCore.PacketNew(w))
    {
      hide At, PushWrit;
      WorkMsg(s0, id, w);
      PushKeepsId(w);
      ghost var w1 := w;
      if msgs[id].incomplete.Some? {
        PushWritPacket(id, s0, w);
        w1 := PushWrit(w);
        WorkMsg(s0, id, w1);
      }
      var m := msgs[id];
      Store(id, m.(incomplete := Some(Packet(m.Stamp(), m.typ, [])), nWrit := m.nWrit + 1), s0, w1);
    }

    method FlushPacket(id: nat, ghost s0: T.Switch, ghost w: Work)
      requires At(s0, id, w) && (msgs[id].discon || msgs[id].Stamp() == s0.msgs[id].Stamp())
      modifies this
      ensures At(s0, id, FlushOpen(w))
    {
      WorkMsg(s0, id, w);
      hide At, PushWrit;
      if msgs[id].incomplete.Some? { PushWritPacket(id, s0, w); }
    }

    lemma StartAt(id: nat)
      requires id in msgs && Valid()
      ensures At(State(), id, Start(msgs[id]))
    {
      var s0 := State();
      assert s0.pend + T.Repeat(id, 0) == s0.pend && s0.resps + T.Stamps(msgs[id].Stamp(), []) == s0.resps;
      assert msgs[id := msgs[id]] == msgs;
      assert (map k | k in idmap && k != 0 :: idmap[k]) == idmap;
    }
  
    // ---------- operations of the user ----------

    /** `s` is any system whose first switch this is. */
    ghost predicate In(s: T.System)
      reads this
    {
      Valid() && s.a.sw == State()
    }

    lemma UserStep(s: T.System, id: nat, act: C.Act)
      requires T.UserAct(act) && T.Possible(s, T.User(id, act)) && T.Safe(s, T.User(id, act))
      ensures id in s.a.sw.msgs && C.Safe(T.Alone(s.a, id), act)
      ensures T.Step(s, T.User(id, act)).a.sw == T.Apply(s.a.sw, id, T.UserWork(s.a.sw.msgs[id], act))
    {
      hide T.Apply, C.Step;
    }

    method Write(id: nat, data: Bytes, ghost s: T.System) returns (res: IoResult)
      requires In(s) && (id in msgs ==> T.Safe(s, T.User(id, C.Write(data))))
      modifies this
      ensures Valid()
      ensures id !in old(msgs) ==> res == EBadMsg && State() == old(State())
      ensures id in old(msgs) ==>
        State() == T.Step(s, T.User(id, C.Write(data))).a.sw
        && var m := old(msgs[id]);
          && (res == EBadMsg <==> m.closed) && (res == EPipe <==> !m.closed && m.discon)
          && (res == EAgain <==> !m.closed && !m.discon && !m.spaceWrit)
          && (res.Count? ==> res.n == |data|)
    {
      if id !in msgs { return EBadMsg; }
      ghost var s0 := State();
      UserStep(s, id, C.Write(data));
      StartAt(id);
      hide T.Step, T.Safe, C.Safe, T.Apply, MsgCore.PacketNew, T.Alone;
      var m := msgs[id];
      if m.closed { return EBadMsg; }
      if m.discon { return EPipe; }
      if !m.spaceWrit { return EAgain; }
      FillFrom(id, data, s0, Start(m));
      res := Count(|data|);
    }

    method FillFrom(id: nat, data: Bytes, ghost s0: T.Switch, ghost w0: Work)
      requires At(s0, id, w0) && !msgs[id].discon && msgs[id].Stamp() == s0.msgs[id].Stamp()
      requires msgs[id].incomplete.Some? ==> |msgs[id].incomplete.value.data| <= PACK_DATA_SIZE
      modifies this
      ensures At(s0, id, Fill(if w0.m.incomplete.None? then MsgCore.PacketNew(w0) else w0, data))
    {
      hide At, Fill, Put, MakeRoom, ChunkSize, MsgCore.PacketNew;
      WorkMsg(s0, id, w0);
      ghost var w := w0;
      if msgs[id].incomplete.None? {
        PacketNew(id, s0, w);
        w := MsgCore.PacketNew(w);
        NewKeepsId(w0);
      }
      ghost var w1 := w;
      var rest := data;
      FillEnds(w);
      while rest != []
        invariant At(s0, id, w) && !w.m.discon && id in s0.msgs && w.m.Stamp() == s0.msgs[id].Stamp()
        invariant Filling(w) && Fill(w, rest) == Fill(w1, data)
        decreases |rest|
      {
        FillRoundIs(w, rest);
        var chunk := FillRound(id, rest, s0, w);
        w := Put(MakeRoom(w), rest[..chunk]);
        rest := rest[chunk..];
      }
      FillEnds(w);
    }

    lemma FillEnds(w: Work)
      requires Filling(w)
      ensures Fill(w, []) == w
    {
    }

    lemma FillRoundIs(w: Work, rest: Bytes)
      requires Filling(w) && rest != []
      ensures var w1 := MakeRoom(w); var n := ChunkSize(w1, rest); var w2 := Put(w1, rest[..n]);
        && Fill(w, rest) == Fill(w2, rest[n..]) && Filling(w2)
        && w2.m.discon == w.m.discon && w2.m.Stamp() == w.m.Stamp()
    {
      hide MsgCore.PacketNew;
      NewKeepsId(w);
    }

    lemma RoomIs(w: Work, rest: Bytes)
      requires Filling(w) && rest != []
      ensures w.m.incomplete.Some? && MakeRoom(w) == if |w.m.incomplete.value.data| == PACK_DATA_SIZE then MsgCore.PacketNew(w) else w
      ensures var r := MakeRoom(w); r.m.incomplete.Some? && var p := r.m.incomplete.value;
        && ChunkSize(r, rest) == (if |rest| > PACK_DATA_SIZE - |p.data| then PACK_DATA_SIZE - |p.data| else |rest|)
        && forall c :: Put(r, c) == r.(m := r.m.(incomplete := Some(p.(data := p.data + c))))
    {
      hide MsgCore.PacketNew;
    }

    method FillRound(id: nat, rest: Bytes, ghost s0: T.Switch, ghost w: Work) returns (chunk: nat)
      requires At(s0, id, w) && !w.m.discon && id in s0.msgs && w.m.Stamp() == s0.msgs[id].Stamp()
      requires Filling(w) && rest != []
      modifies this
      ensures chunk == ChunkSize(MakeRoom(w), rest) && At(s0, id, Put(MakeRoom(w), rest[..chunk]))
    {
      hide *;
      WorkMsg(s0, id, w);
      NewKeepsId(w);
      RoomIs(w, rest);
      if |msgs[id].incomplete.value.data| == PACK_DATA_SIZE {
        PacketNew(id, s0, w);
      }
      WorkMsg(s0, id, MakeRoom(w));
      var p := msgs[id].incomplete.value;
      chunk := if |rest| > PACK_DATA_SIZE - |p.data| then PACK_DATA_SIZE - |p.data| else |rest|;
      Store(id, msgs[id].(incomplete := Some(p.(data := p.data + rest[..chunk]))), s0, MakeRoom(w));
    }

    lemma NewKeepsId(w: Work)
      ensures var r := MsgCore.PacketNew(w); r.m.discon == w.m.discon && r.m.Stamp() == w.m.Stamp()
    {
      hide PushWrit;
      PushKeepsId(w);
    }

    lemma PushKeepsId(w: Work)
      ensures w.m.incomplete.Some? ==> PushWrit(w).m.discon == w.m.discon && PushWrit(w).m.Stamp() == w.m.Stamp()
    {
    }

    method Flush(id: nat, ghost s: T.System) returns (res: IoResult)
      requires In(s) && (id in msgs ==> T.Safe(s, T.User(id, C.Flush)))
      modifies this
      ensures Valid()
      ensures id !in old(msgs) ==> res == EBadMsg && State() == old(State())
      ensures id in old(msgs) ==>
        State() == T.Step(s, T.User(id, C.Flush)).a.sw && res == if old(msgs[id]).closed then EBadMsg else Count(0)
    {
      if id !in msgs { return EBadMsg; }
      UserStep(s, id, C.Flush);
      StartAt(id);
      hide T.Step, T.Safe, C.Safe, T.Apply, T.Possible, T.Alone, FlushOpen;
      if msgs[id].closed { return EBadMsg; }
      FlushPacket(id, State(), Start(msgs[id]));
      res := Count(0);
    }
  
    method Read(id: nat, size: nat, ghost s: T.System) returns (res: IoResult, buf: Bytes)
      requires In(s) && (id in msgs ==> T.Safe(s, T.User(id, C.Read(size))))
      modifies this
      ensures Valid()
      ensures id !in old(msgs) ==> res == EBadMsg && buf == [] && State() == old(State())
      ensures id in old(msgs) ==>
        State() == T.Step(s, T.User(id, C.Read(size))).a.sw
        && buf == MsgCore.Read(old(msgs[id]), size).2
        && var m := old(msgs[id]);
          && (res == EBadMsg <==> m.closed) && (res == EAgain <==> !m.closed && !m.discon && !m.availRead)
          && (!m.closed && (m.discon || m.availRead) ==> res == Count(|buf|))
    {
      buf := [];
      if id !in msgs { return EBadMsg, buf; }
      UserStep(s, id, C.Read(size));
      StartAt(id);
      hide T.Step, T.Safe, C.Safe, T.Apply, T.Alone, ReadLoop;
      var m := msgs[id];
      if m.closed { return EBadMsg, buf; }
      if m.discon && !m.availRead { return Count(0), buf; }
      if !m.availRead { return EAgain, buf; }
      buf := CopyOut(id, size, State(), Start(m));
      res := Count(|buf|);
    }

    method CopyOut(id: nat, size: nat, ghost s0: T.Switch, ghost w0: Work) returns (buf: Bytes)
      requires At(s0, id, w0) && Reading(msgs[id]) && msgs[id].Stamp() == s0.msgs[id].Stamp()
      modifies this
      ensures At(s0, id, ReadLoop(w0, size, []).0) && buf == ReadLoop(w0, size, []).1
    {
      hide At, Reading, ReadStep, ReadPart;
      WorkMsg(s0, id, w0);
      ghost var w := w0;
      buf := [];
      var left, more := size, true;
      while left > 0 && more
        invariant At(s0, id, w) && id in msgs && id in s0.msgs && msgs[id] == w.m
        invariant w.m.Stamp() == s0.msgs[id].Stamp()
        invariant left >= 0 && (more ==> Reading(w.m) && ReadLoop(w, left, buf) == ReadLoop(w0, size, []))
        invariant !more ==> (w, buf) == ReadLoop(w0, size, [])
        decreases more, if id in msgs then |msgs[id].readQ| else 0, left
      {
        ReadRound(w, left, buf);
        var part, on := CopyRound(id, left, s0, w);
        w, more := ReadStep(w, left).0, on;
        WorkMsg(s0, id, w);
        buf, left := buf + part, left - |part|;
      }
    }

    method CopyRound(id: nat, left: nat, ghost s0: T.Switch, ghost w: Work) returns (part: Bytes, more: bool)
      requires At(s0, id, w) && Reading(w.m) && left > 0 && w.m.Stamp() == s0.msgs[id].Stamp()
      modifies this
      ensures At(s0, id, ReadStep(w, left).0) && part == ReadPart(w, left) && more == ReadStep(w, left).1
    {
      hide At, ReadStep, ReadLoop, Reading, PopRead, NextChunk;
      WorkMsg(s0, id, w);
      ReadRound(w, left, []);
      var head := msgs[id].readQ[0].data;
      var pos := msgs[id].readPos;
      var chunk := if |head| - pos > left then left else |head| - pos;
      part, more := head[pos..pos + chunk], true;
      ghost var w1 := Advance(w, chunk);
      Store(id, msgs[id].(readPos := pos + chunk), s0, w);
      if pos + chunk == |head| {
        PopReadPacket(id, s0, w1);
        WorkMsg(s0, id, PopRead(w1));
        more := msgs[id].availRead;
      }
    }

    lemma RoundChunk(w: Work, left: nat)
      requires Reading(w.m)
      ensures w.m.readQ != [] && w.m.readPos <= |w.m.readQ[0].data|
      ensures var n := |w.m.readQ[0].data| - w.m.readPos; NextChunk(w, left) == if n > left then left else n
      ensures |ReadPart(w, left)| == NextChunk(w, left) && Advance(w, NextChunk(w, left)).m.readQ == w.m.readQ
    {
    }

    lemma RoundStep(w: Work, left: nat)
      requires Reading(w.m)
      ensures var w1 := Advance(w, NextChunk(w, left));
        && w1.m.readQ == w.m.readQ != []
        && ReadStep(w, left) ==
             if w.m.readPos + NextChunk(w, left) == |w.m.readQ[0].data| then (PopRead(w1), PopRead(w1).m.availRead) else (w1, true)
    {
      hide PopRead, NextChunk;
    }

    lemma RoundStamp(w: Work, left: nat)
      requires Reading(w.m)
      ensures ReadStep(w, left).0.m.Stamp() == w.m.Stamp()
    {
      hide NextChunk, ReadStep;
      RoundStep(w, left);
    }

    lemma RoundLoop(w: Work, left: nat, buf: Bytes)
      requires Reading(w.m) && left > 0
      ensures var (w2, more) := ReadStep(w, left); var got := buf + ReadPart(w, left);
        ReadLoop(w, left, buf) == if more then ReadLoop(w2, left - NextChunk(w, left), got) else (w2, got)
    {
      hide ReadStep, ReadPart, NextChunk, Reading;
    }

    /** One round of the copying loop, as the code takes it. */
    lemma ReadRound(w: Work, left: nat, buf: Bytes)
      requires Reading(w.m) && left > 0
      ensures w.m.readQ != [] && w.m.readPos <= |w.m.readQ[0].data|
      ensures var n := |w.m.readQ[0].data| - w.m.readPos;
        NextChunk(w, left) == if n > left then left else n
      ensures var (n, (w2, more)) := (NextChunk(w, left), ReadStep(w, left));
        && (w.m.readPos + n == |w.m.readQ[0].data| ==> w2 == PopRead(Advance(w, n)) && more == w2.m.availRead)
        && (w.m.readPos + n != |w.m.readQ[0].data| ==> w2 == Advance(w, n) && more)
        && w2.m.Stamp() == w.m.Stamp()
        && Advance(w, n).m.readQ == w.m.readQ && |ReadPart(w, left)| == n
        && (more ==> |w2.m.readQ| < |w.m.readQ| || (|w2.m.readQ| == |w.m.readQ| && n > 0))
        && (more ==> Reading(w2.m))
        && ReadLoop(w, left, buf) ==
             if more then ReadLoop(w2, left - n, buf + ReadPart(w, left)) else (w2, buf + ReadPart(w, left))
    {
      hide *;
      RoundChunk(w, left);
      RoundStep(w, left);
      RoundStamp(w, left);
      RoundLoop(w, left, buf);
    }

    method Accept(id: nat, ghost s: T.System) returns (ok: bool)
      requires In(s) && (id in msgs ==> T.Safe(s, T.User(id, C.Accept)))
      modifies this
      ensures Valid()
      ensures id !in old(msgs) ==> !ok && State() == old(State())
      ensures id in old(msgs) ==>
        State() == T.Step(s, T.User(id, C.Accept)).a.sw
        && var m := old(msgs[id]);
          && ok == (!m.closed && !m.connected && !m.discon)
          && (ok ==> msgs == old(msgs)[id := m.(connected := true)])
          && (!ok && (m.closed || m.connected) ==> msgs == old(msgs))
          && (!ok && !m.closed && !m.connected ==> id !in msgs)
    {
      if id !in msgs { return false; }
      UserStep(s, id, C.Accept);
      StartAt(id);
      hide T.Step, T.Safe, C.Safe, T.Apply, T.Alone, MsgCore.Free;
      var m := msgs[id];
      if m.closed || m.connected { return false; }
      if m.discon {
        Free(id, State(), Start(m));
        return false;
      }
      Store(id, m.(connected := true), State(), Start(m));
      ok := true;
    }

    method Close(id: nat, ghost s: T.System) returns (res: IoResult)
      requires In(s) && (id in msgs ==> T.Safe(s, T.User(id, C.Close)))
      modifies this
      ensures Valid()
      ensures id !in old(msgs) ==> res == EBadMsg && State() == old(State())
      ensures id in old(msgs) ==>
        State() == T.Step(s, T.User(id, C.Close)).a.sw && res == if old(msgs[id]).closed then EBadMsg else Count(0)
    {
      if id !in msgs { return EBadMsg; }
      UserStep(s, id, C.Close);
      StartAt(id);
      hide T.Step, T.Safe, C.Safe, T.Apply, T.Alone, FlushOpen, CloseTail, MsgCore.Free;
      var m := msgs[id];
      if m.closed { return EBadMsg; }
      if m.discon {
        Free(id, State(), Start(m));
        return Count(0);
      }
      CloseLive(id, State(), Start(m));
      res := Count(0);
    }

    /** The part of `msg_close` that flushes, marks the message closed and disconnects or frees it. */
    method CloseLive(id: nat, ghost s0: T.Switch, ghost w0: Work)
      requires At(s0, id, w0) && w0 == Start(msgs[id]) && msgs[id] == s0.msgs[id] && !msgs[id].closed && !msgs[id].discon
      requires msgs[id].availRead ==> msgs[id].readQ != []
      modifies this
      ensures Done(s0, id, MsgCore.Close(w0.m).0)
    {
      hide At, T.Apply, T.RemoveFirst;
      WorkMsg(s0, id, w0);
      FlushPacket(id, s0, w0);
      ghost var w := FlushOpen(w0);
      FlushedSame(w0);
      hide FlushOpen;
      WorkMsg(s0, id, w);
      Store(id, msgs[id].(closed := true), s0, w);
      w := w.(m := w.m.(closed := true));
      if !msgs[id].availWrit {
        if msgs[id].nWrit == 0 && msgs[id].nRead == 0 {
          Free(id, s0, w);
          return;
        }
        SendResp(id, Discon, s0, w);
        w := MsgCore.SendResp(w, Discon);
        WorkMsg(s0, id, w);
        Store(id, msgs[id].(sentDiscon := true), s0, w);
        w := w.(m := w.m.(sentDiscon := true));
      }
      EmptyRead(id, s0, w);
      AtDone(s0, id, DrainRead(w));
    }

    lemma FlushedSame(w: Work)
      ensures var r := FlushOpen(w);
        && r.m.readQ == w.m.readQ && r.m.availRead == w.m.availRead && r.m.discon == w.m.discon
        && r.m.imsgid == w.m.imsgid && r.m.msgid == w.m.msgid
        && r.drop == w.drop && (w.push == 0 && !r.m.availWrit ==> r.push == 0)
    {
      if w.m.incomplete.Some? {
        UpdatedSame(w.(m := PushedWrit(w.m)));
        hide MsgCore.UpdateStatus;
      }
    }

    lemma UpdatedSame(w: Work)
      ensures var r := MsgCore.UpdateStatus(w);
        && r.m.readQ == w.m.readQ && r.m.availRead == w.m.availRead && r.m.discon == w.m.discon
        && r.m.imsgid == w.m.imsgid && r.m.msgid == w.m.msgid && r.m.availWrit == w.m.availWrit
        && r.m.writQ == w.m.writQ && r.m.closed == w.m.closed
        && r.drop == w.drop
    {
    }

    lemma AtDone(s0: T.Switch, id: nat, w: Work)
      requires At(s0, id, w)
      ensures Done(s0, id, w)
    {
    }

    method EmptyRead(id: nat, ghost s0: T.Switch, ghost w0: Work)
      requires At(s0, id, w0) && (w0.m.availRead ==> w0.m.readQ != []) && w0.m.Stamp() == s0.msgs[id].Stamp()
      modifies this
      ensures At(s0, id, DrainRead(w0))
    {
      hide At, PopRead;
      ghost var w := w0;
      WorkMsg(s0, id, w);
      while msgs[id].availRead
        invariant At(s0, id, w) && id in msgs && id in s0.msgs && msgs[id] == w.m && w.m.Stamp() == s0.msgs[id].Stamp()
        invariant (w.m.availRead ==> w.m.readQ != []) && DrainRead(w) == DrainRead(w0)
        decreases if id in msgs then |msgs[id].readQ| else 0
      {
        PopReadPacket(id, s0, w);
        PoppedSame(w);
        w := PopRead(w);
        WorkMsg(s0, id, w);
      }
    }

    lemma PoppedSame(w: Work)
      requires w.m.readQ != []
      ensures var r := PopRead(w);
        && r.m.readQ == w.m.readQ[1..] && (r.m.availRead ==> r.m.readQ != []) && r.m.Stamp() == w.m.Stamp()
    {
    }

    method Open(typ: int, ghost s: T.System, ghost id0: nat) returns (id: nat)
      requires In(s) && LeastFree(msgs, id0) && id0 < FD_SETSIZE
      modifies this`msgs
      ensures Valid() && id == id0 && State() == T.Step(s, T.Open(id, typ)).a.sw
    {
      id := AvailId(id0);
      msgs := msgs[id := Fresh(id, 0, typ).(connected := true)];
    }

    method AvailId(ghost id0: nat) returns (id: nat)
      requires LeastFree(msgs, id0) && id0 < FD_SETSIZE
      ensures id == id0
    {
      id := 1;
      while id in msgs
        invariant 0 < id <= id0
        decreases id0 - id
      {
        id := id + 1;
      }
    }
  
    // ---------- the wire ----------

    /** `msg_switch_write`, called when the connection can take a frame: the next frame to send. */
    method SwitchWrite(ghost s: T.System) returns (f: T.Frame)
      requires In(s) && armed && T.Safe(s, T.Send)
      modifies this
      ensures Valid() && State() == T.SendFrame(s).a.sw && T.SendFrame(s).ab == s.ab + [f]
    {
      if resps != [] {
        f := resps[0];
        resps := resps[1..];
      } else {
        var id := pend[0];
        StartAt(id);
        SendState(s);
        hide T.Apply, PopWrit;
        var packet := PopWritPacket(id, State(), Start(msgs[id]));
        pend := if pend == [] then [] else pend[1..];
        f := T.Pack(packet);
      }
      armed := armed && (pend != [] || resps != []);
    }

    lemma SendState(s: T.System)
      requires T.Possible(s, T.Send) && T.Safe(s, T.Send) && s.a.sw.resps == []
      ensures s.a.sw.pend != [] && s.a.sw.pend[0] in s.a.sw.msgs && s.a.sw.msgs[s.a.sw.pend[0]].writQ != []
      ensures var n := s.a.sw.pend[0]; var sw := T.Apply(s.a.sw, n, PopWrit(Start(s.a.sw.msgs[n])));
        T.SendFrame(s).a.sw == T.Disarm(sw.(pend := if sw.pend == [] then [] else sw.pend[1..]))
    {
      hide T.Apply, PopWrit;
    }

    /** The frame at the head of the wire, decoded by `msg_switch_read`, reaches its message. A message is
        created on the least free id, whatever used that id before; other frames need no free id. */
    method Deliver(f: T.Frame, ghost s: T.System, ghost id0: nat)
      requires In(s) && s.ba != [] && s.ba[0] == f && (T.Creates(s) ==> LeastFree(msgs, id0) && id0 < FD_SETSIZE)
      requires T.Possible(s, T.Recv(id0)) && T.Safe(s, T.Recv(id0))
      modifies this
      ensures Valid() && State() == T.Step(s, T.Recv(id0)).a.sw
    {
      match f
      case Resp(msgid, st) => DeliverResp(msgid, st, s, id0);
      case Pack(p) => DeliverPack(p, s, id0);
    }

    function Find(msgid: int): Option<nat>
      reads this
    {
      T.Lookup(State(), msgid)
    }

    lemma RespStep(s: T.System, id0: nat)
      requires s.ba != [] && s.ba[0].Resp? && T.Possible(s, T.Recv(id0)) && T.Safe(s, T.Recv(id0))
      ensures match T.Lookup(s.a.sw, s.ba[0].msgid)
        case None => T.Step(s, T.Recv(id0)).a.sw == s.a.sw
        case Some(n) =>
          && n in s.a.sw.msgs && RespExpected(s.a.sw.msgs[n], s.ba[0].st)
          && (s.a.sw.msgs[n].availWrit ==> s.a.sw.msgs[n].writQ != [])
          && T.Step(s, T.Recv(id0)).a.sw == T.Apply(s.a.sw, n, MsgCore.RecvResp(s.a.sw.msgs[n], s.ba[0].st))
    {
      hide T.Apply, MsgCore.RecvResp;
    }

    method DeliverResp(msgid: int, st: Status, ghost s: T.System, ghost id0: nat)
      requires In(s) && s.ba != [] && s.ba[0] == T.Resp(msgid, st)
      requires T.Possible(s, T.Recv(id0)) && T.Safe(s, T.Recv(id0))
      modifies this
      ensures Valid() && State() == T.Step(s, T.Recv(id0)).a.sw
    {
      RespStep(s, id0);
      hide T.Step, T.Safe, T.Possible, T.Apply, MsgCore.RecvResp;
      match Find(msgid)
      case None =>
      case Some(id) =>
        StartAt(id);
        RecvResp(id, st, State(), Start(msgs[id]));
    }

    method RecvResp(id: nat, st: Status, ghost s0: T.Switch, ghost w0: Work)
      requires At(s0, id, w0) && w0 == Start(s0.msgs[id]) && RespExpected(w0.m, st) && (w0.m.availWrit ==> w0.m.writQ != [])
      modifies this
      ensures Done(s0, id, MsgCore.RecvResp(s0.msgs[id], st))
    {
      hide At, T.Apply, T.RemoveFirst, DrainWrit, MsgCore.Clear, FlushOpen, MsgCore.UpdateStatus, RecvOk;
      WorkMsg(s0, id, w0);
      if st == Discon {
        if msgs[id].sentDiscon {
          Free(id, s0, w0);
        } else {
          Answer(id, s0, w0);
        }
      } else if msgs[id].sentDiscon {
        AtDone(s0, id, w0);
      } else {
        Store(id, msgs[id].(waiting := false), s0, w0);
        Acknowledged(id, s0, w0.(m := w0.m.(waiting := false)));
      }
    }

    method Answer(id: nat, ghost s0: T.Switch, ghost w0: Work)
      requires At(s0, id, w0) && w0 == Start(s0.msgs[id]) && !w0.m.sentDiscon && (w0.m.availWrit ==> w0.m.writQ != [])
      modifies this
      ensures Done(s0, id, MsgCore.RecvResp(s0.msgs[id], Discon))
    {
      hide At, T.Apply, T.RemoveFirst, DrainWrit, MsgCore.Clear, Told;
      TellPeer(id, s0, w0);
      ghost var w := Told(w0);
      WorkMsg(s0, id, w);
      ToldIs(w0);
      if !msgs[id].availRead {
        Clear(id, s0, w);
        AtDone(s0, id, MsgCore.Clear(w));
      } else {
        EmptyWrit(id, s0, w);
        AtDone(s0, id, DrainWrit(w));
      }
    }

    function Told(w: Work): Work {
      var w1 := Disconnect(w);
      w1.(m := w1.m.(discon := true, imsgid := 0))
    }

    lemma ToldIs(w0: Work)
      requires w0 == Start(w0.m) && !w0.m.sentDiscon && (w0.m.availWrit ==> w0.m.writQ != [])
      ensures var w := Told(w0);
        && w.push == 0 && !w.drop && w.m.discon && (w.m.availWrit ==> w.m.writQ != [])
        && MsgCore.RecvResp(w0.m, Discon) == if !w.m.availRead then MsgCore.Clear(w) else DrainWrit(w)
    {
      hide DrainWrit, MsgCore.Clear;
    }

    method TellPeer(id: nat, ghost s0: T.Switch, ghost w0: Work)
      requires At(s0, id, w0) && w0 == Start(s0.msgs[id])
      modifies this
      ensures At(s0, id, Told(w0))
    {
      hide At;
      WorkMsg(s0, id, w0);
      SendResp(id, Discon, s0, w0);
      ghost var w := MsgCore.SendResp(w0, Discon);
      WorkMsg(s0, id, w);
      Store(id, msgs[id].(sentDiscon := true, discon := true), s0, w);
      w := w.(m := w.m.(sentDiscon := true, discon := true));
      WorkMsg(s0, id, w);
      Forget(id, s0, w);
    }

    /** `imsgid_map[ imsgid ] = 0` and `imsgid = 0`. */
    method Forget(id: nat, ghost s0: T.Switch, ghost w: Work)
      requires At(s0, id, w) && w.m.imsgid == s0.msgs[id].imsgid
      modifies this
      ensures At(s0, id, w.(m := w.m.(imsgid := 0)))
    {
      hide T.Apply, Drop;
      WorkMsg(s0, id, w);
      ForgetIs(s0, id, w);
      var m := msgs[id];
      idmap := Drop(idmap, m.imsgid);
      msgs := msgs[id := m.(imsgid := 0)];
    }

    method EmptyWrit(id: nat, ghost s0: T.Switch, ghost w0: Work)
      requires At(s0, id, w0) && (w0.m.availWrit ==> w0.m.writQ != []) && w0.m.discon
      modifies this
      ensures At(s0, id, DrainWrit(w0))
    {
      hide At, PopWrit;
      ghost var w := w0;
      WorkMsg(s0, id, w);
      while msgs[id].availWrit
        invariant At(s0, id, w) && id in msgs && id in s0.msgs && msgs[id] == w.m && w.m.discon
        invariant (w.m.availWrit ==> w.m.writQ != []) && DrainWrit(w) == DrainWrit(w0)
        decreases if id in msgs then |msgs[id].writQ| else 0
      {
        var packet := PopWritPacket(id, s0, w);
        SentSame(w);
        w := PopWrit(w);
        WorkMsg(s0, id, w);
      }
    }

    lemma SentSame(w: Work)
      requires w.m.writQ != []
      ensures var r := PopWrit(w);
        && r.m.writQ == w.m.writQ[1..] && (r.m.availWrit ==> r.m.writQ != []) && r.m.discon == w.m.discon
    {
      UpdatedSame(w.(m := PoppedWrit(w.m)));
      hide MsgCore.UpdateStatus;
    }

    method Acknowledged(id: nat, ghost s0: T.Switch, ghost w: Work)
      requires At(s0, id, w) && w.m.Stamp() == s0.msgs[id].Stamp() && !w.m.sentDiscon
      modifies this
      ensures Done(s0, id, RecvOk(w))
    {
      hide At, T.Apply, MsgCore.UpdateStatus;
      WorkMsg(s0, id, w);
      FlushedSame(w);
      hide FlushOpen;
      ghost var w1 := w;
      if !msgs[id].availWrit {
        if !msgs[id].closed {
          FlushPacket(id, s0, w);
          w1 := FlushOpen(w);
          WorkMsg(s0, id, w1);
        }
        if !msgs[id].availWrit && msgs[id].closed {
          SendResp(id, Discon, s0, w1);
          w1 := MsgCore.SendResp(w1, Discon);
          WorkMsg(s0, id, w1);
          Store(id, msgs[id].(sentDiscon := true), s0, w1);
          w1 := w1.(m := w1.m.(sentDiscon := true));
          WorkMsg(s0, id, w1);
        }
      }
      UpdateStatus(id, s0, w1);
      AtDone(s0, id, MsgCore.UpdateStatus(w1));
    }
  
    lemma PackStep(s: T.System, id0: nat)
      requires s.ba != [] && s.ba[0].Pack? && T.Possible(s, T.Recv(id0)) && T.Safe(s, T.Recv(id0))
      ensures var p := s.ba[0].p; match T.Lookup(s.a.sw, p.msgid)
        case None =>
          && p.msgid < 0
          && var sw := T.Create(s.a, id0, -p.msgid, p.typ).sw;
            id0 in sw.msgs && T.Step(s, T.Recv(id0)).a.sw == T.Apply(sw, id0, RecvPack(sw.msgs[id0], p))
        case Some(n) =>
          n in s.a.sw.msgs && T.Step(s, T.Recv(id0)).a.sw == T.Apply(s.a.sw, n, RecvPack(s.a.sw.msgs[n], p))
    {
      hide T.Apply, RecvPack;
    }

    method DeliverPack(p: Packet, ghost s: T.System, ghost id0: nat)
      requires In(s) && s.ba != [] && s.ba[0] == T.Pack(p) && (T.Creates(s) ==> LeastFree(msgs, id0) && id0 < FD_SETSIZE)
      requires T.Possible(s, T.Recv(id0)) && T.Safe(s, T.Recv(id0))
      modifies this
      ensures Valid() && State() == T.Step(s, T.Recv(id0)).a.sw
    {
      hide T.Step, T.Safe, T.Possible, T.Apply, PushRead;
      PackStep(s, id0);
      var id;
      match Find(p.msgid) {
        case Some(n) => id := n;
        case None =>
          id := AvailId(id0);
          msgs, idmap := msgs[id := Fresh(id, -p.msgid, p.typ)], idmap[-p.msgid := id];
          assert State() == T.Create(s.a, id0, -p.msgid, p.typ).sw;
      }
      StartAt(id);
      PushReadPacket(id, p, State(), Start(msgs[id]));
    }
  }
}
