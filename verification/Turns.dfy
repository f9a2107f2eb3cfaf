/** Whose turn it is to send: a message that waits on the send list is served after those before it, once each. */
module Turns {
  import opened MsgCore
  import opened MsgFacts
  import opened TwoSwitches
  import opened Steps
  import C = Conversation
  import R = Runs

  /** Where a message stands on the send list, or the length of the list. */
  function Place(q: seq<nat>, n: nat): (k: nat)
    ensures k <= |q| && (k < |q| ==> q[k] == n) && n !in q[..k]
  {
    if q == [] || q[0] == n then 0 else 1 + Place(q[1..], n)
  }

  lemma {:induction false} PlaceMore(q: seq<nat>, r: seq<nat>, n: nat)
    requires n in q
    ensures Place(q + r, n) == Place(q, n) < |q|
  {
    if q[0] != n {
      assert (q + r)[1..] == q[1..] + r && n in q[1..];
      PlaceMore(q[1..], r, n);
    }
  }

  lemma {:induction false} PlaceRemoved(q: seq<nat>, m: nat, n: nat)
    requires m != n && n in q
    ensures n in RemoveFirst(q, m) && Place(RemoveFirst(q, m), n) <= Place(q, n)
  {
    if q[0] == m {
      assert n in q[1..];
    } else if q[0] != n {
      assert n in q[1..];
      PlaceRemoved(q[1..], m, n);
      var r := RemoveFirst(q[1..], m);
      assert ([q[0]] + r)[1..] == r;
    }
  }

  /** Work on another message does not put a message back. */
  lemma ApplyPlace(sw: Switch, m: nat, w: Work, n: nat)
    requires m in sw.msgs && n in sw.pend && (m == n ==> !w.drop)
    ensures n in Apply(sw, m, w).pend && Place(Apply(sw, m, w).pend, n) <= Place(sw.pend, n)
  {
    hide RemoveFirst, Repeat, Stamps;
    var q := if w.drop then RemoveFirst(sw.pend, m) else sw.pend;
    if w.drop { PlaceRemoved(sw.pend, m, n); }
    PlaceMore(q, Repeat(m, w.push), n);
  }

  // ---------- one step ----------

  /** The step sends a packet, not a response. */
  predicate Turn(s: System, mv: Move)
    requires Possible(s, mv) && Safe(s, mv)
  {
    mv.Send? && var out := Step(s, mv).ab; out != [] && out[|out| - 1].Pack?
  }

  /** The step sends the next packet of message n, which then waits for its acknowledgement. */
  predicate Serves(s: System, mv: Move, n: nat)
    requires Possible(s, mv) && Safe(s, mv)
  {
    && mv.Send? && n in s.a.sw.msgs && s.a.sw.msgs[n].writQ != []
    && var t := Step(s, mv);
      && t.ab == s.ab + [Pack(s.a.sw.msgs[n].writQ[0])]
      && n !in t.a.sw.pend && n in t.a.sw.msgs && t.a.sw.msgs[n].waiting
  }

  /** The message is gone, or its peer has disconnected. */
  predicate Ended(s: System, n: nat) { n in s.a.sw.msgs ==> s.a.sw.msgs[n].discon }

  /** What work does to a message that waits to send, unless it ends the message: it goes on waiting. */
  predicate StillListed(m: Msg, w: Work) { m.writing ==> w.freed || w.m.discon || (!w.drop && w.m.writing) }

  lemma UserListed(m: Msg, h: int, act: C.Act)
    requires MsgOk(m, h) && UserAct(act)
    requires act.Write? && m.incomplete.Some? ==> |m.incomplete.value.data| <= PACK_DATA_SIZE
    requires act.Read? && !m.closed && m.availRead ==> Reading(m)
    requires act.Close? && !m.closed && m.availRead ==> m.readQ != []
    ensures StillListed(m, UserWork(m, act))
  {
    match act
    case Write(data) => WriteFacts(m, h, data); hide MsgCore.Write;
    case Read(size) => ReadFacts(m, h, size); hide MsgCore.Read;
    case Flush => if !m.closed && !m.discon { FlushFacts(m, h); } hide FlushOpen;
    case Accept =>
    case Close => if !m.closed && !m.discon { CloseFacts(m, h); } hide FlushOpen, CloseTail;
  }

  lemma ReactionListed(m: Msg, h: int, f: Frame)
    requires MsgOk(m, h) && (f.Resp? ==> RespExpected(m, f.st) && DrainSafeFor(m, f.st) && (m.availWrit ==> m.writQ != []))
    ensures StillListed(m, Reaction(m, f))
  {
    if m.writing && f.Resp? && f.st.Discon? { RecvDisconFacts(m, h); }
    hide DrainWrit, PushWrit;
  }

  /** The work of a step on a message that waits to send. */
  lemma JobListed(s: System, mv: Move, n: nat)
    requires Inv(s) && Enabled(s, mv) && Safe(s, mv) && !mv.Send? && n in s.a.sw.msgs
    requires Doing(s, mv).Some? && Doing(s, mv).value.n == n
    ensures var job := Doing(s, mv).value; job.before == s.a.sw.msgs[n] && StillListed(job.before, job.w)
  {
    hide Inv, UserWork, RecvPack, RecvResp, RespExpected, MsgOk, StillListed, DrainSafe;
    OkAt(s, n);
    match mv
    case User(_, act) => UserListed(s.a.sw.msgs[n], StampOf(s.a, n), act);
    case Recv(newId) => ReactionListed(s.a.sw.msgs[n], StampOf(s.a, n), s.ba[0]);
  }

  /** A response is sent, a message opened or a history forgotten: the send list stays as it is. */
  lemma IdleList(s: System, mv: Move)
    requires Inv(s) && Possible(s, mv) && Safe(s, mv) && Doing(s, mv) == None
    ensures Step(s, mv).a.sw.pend == s.a.sw.pend && !Turn(s, mv)
  {
    hide C.Inv, View, Routed, UserWork, PopWrit, RecvPack, RecvResp, RespExpected, C.Step, React;
    if mv.Send? { assert s.a.sw.resps[0] in s.a.sw.resps; }
  }

  lemma ServedOrNext(s: System, n: nat)
    requires Inv(s) && Possible(s, Move.Send) && Safe(s, Move.Send) && s.a.sw.resps == [] && n in s.a.sw.pend
    ensures Step(s, Move.Send).a.sw.pend == s.a.sw.pend[1..]
    ensures s.a.sw.pend[0] == n ==> Serves(s, Move.Send, n)
  {
    hide Inv, PopWrit, MsgOk, View, EndOf;
    var k := s.a.sw.pend[0];
    SendPackReady(s, PopWrit(Start(s.a.sw.msgs[k])));
    FirstMaySend(s);
    PopWritFacts(s.a.sw.msgs[k], StampOf(s.a, k));
    SendListExact(s, k);
    PopEntries(s.a.sw.pend, k);
  }

  /** A waiting message is served, or ends, or goes on waiting; and every packet sent meanwhile brings it one
      place forward. */
  lemma StepListed(s: System, mv: Move, n: nat)
    requires Inv(s) && Enabled(s, mv) && Safe(s, mv) && n in s.a.sw.pend
    ensures var t := Step(s, mv).a.sw;
      || Serves(s, mv, n) || Ended(Step(s, mv), n)
      || (n in t.pend && Place(t.pend, n) + Bit(Turn(s, mv)) <= Place(s.a.sw.pend, n))
  {
    hide Inv, Step, Safe, Possible, Doing, Place, Serves, Guarded;
    SendListExact(s, n);
    if mv.Send? && s.a.sw.resps != [] { OneOrOther(s, mv); }
    if mv.Send? && s.a.sw.resps == [] {
      SendNext(s, n);
    } else if Doing(s, mv) == None {
      IdleList(s, mv);
    } else {
      WorkNext(s, mv, n);
    }
  }

  lemma OneOrOther(s: System, mv: Move)
    requires Possible(s, mv) && Safe(s, mv) && mv.Send? && s.a.sw.resps != []
    ensures Doing(s, mv) == None
  {
  }

  lemma SendNext(s: System, n: nat)
    requires Inv(s) && Possible(s, Move.Send) && Safe(s, Move.Send) && s.a.sw.resps == [] && n in s.a.sw.pend
    ensures var t := Step(s, Move.Send).a.sw;
      Serves(s, Move.Send, n) || (n in t.pend && Place(t.pend, n) + 1 <= Place(s.a.sw.pend, n))
  {
    hide Inv, Step, Safe, Possible, Serves, Turn;
    ServedOrNext(s, n);
    if s.a.sw.pend[0] != n { assert n in s.a.sw.pend[1..]; }
  }

  lemma WorkNext(s: System, mv: Move, n: nat)
    requires Inv(s) && Enabled(s, mv) && Safe(s, mv) && n in s.a.sw.pend && n in s.a.sw.msgs && s.a.sw.msgs[n].writing
    requires Doing(s, mv).Some? && !mv.Send?
    ensures var t := Step(s, mv).a.sw; Ended(Step(s, mv), n) || (n in t.pend && Place(t.pend, n) <= Place(s.a.sw.pend, n))
  {
    hide Inv, Step, Safe, Doing, Place, Apply;
    var nd, x := StepIs(s, mv);
    var job := Doing(s, mv).value;
    if job.n == n { JobListed(s, mv, n); }
    ApplyMsgs(nd.sw, job.n, job.w, n);
    if job.n != n || !job.w.drop { ApplyPlace(nd.sw, job.n, job.w, n); }
  }

  // ---------- any run ----------

  /** How many packets a switch sends in a run. */
  ghost function Turns(s: System, run: seq<R.Event>, first: bool): nat
    decreases |run|
  {
    if run == [] then 0 else
      var s0 := R.Side(s, run[0].first);
      if Possible(s0, run[0].mv) && Safe(s0, run[0].mv) then
        Bit(run[0].first == first && Turn(s0, run[0].mv)) + Turns(R.Side(Step(s0, run[0].mv), run[0].first), run[1..], first)
      else 0
  }

  /** Some step of the run serves message n, or leaves it without a peer or gone. */
  ghost predicate HasTurn(s: System, run: seq<R.Event>, first: bool, n: nat)
    decreases |run|
  {
    run != [] && var s0 := R.Side(s, run[0].first);
    && Possible(s0, run[0].mv) && Safe(s0, run[0].mv)
    && ((run[0].first == first && (Serves(s0, run[0].mv, n) || Ended(Step(s0, run[0].mv), n)))
        || HasTurn(R.Side(Step(s0, run[0].mv), run[0].first), run[1..], first, n))
  }

  /** Every run: until its turn has come a message waits, and it comes forward by one place for every packet that
      its switch sends. */
  lemma {:induction false} ComesForward(s: System, run: seq<R.Event>, t: System, first: bool, n: nat)
    requires Inv(s) && R.Reaches(s, run, t) && n in R.Side(s, first).a.sw.pend
    ensures HasTurn(s, run, first, n)
      || (n in R.Side(t, first).a.sw.pend
          && Turns(s, run, first) + Place(R.Side(t, first).a.sw.pend, n) <= Place(R.Side(s, first).a.sw.pend, n))
    decreases |run|
  {
    hide Inv, Step, Safe, Possible, Guarded, Place, Serves, Ended, Turn;
    if run != [] {
      var e := run[0];
      var s0 := R.Side(s, e.first);
      var s1 := R.Side(Step(s0, e.mv), e.first);
      SwapInv(s);
      if e.first == first {
        StepListed(s0, e.mv, n);
      } else {
        StepRest(s0, e.mv);
      }
      R.RunKeeps(s, [e], s1);
      if !HasTurn(s, run, first, n) { ComesForward(s1, run[1..], t, first, n); }
    }
  }

  /** Round robin: a message k places down the send list has had its turn when its switch has sent k + 1 packets. */
  lemma RoundRobin(s: System, run: seq<R.Event>, t: System, first: bool, n: nat)
    requires R.Reachable(s) && R.Reaches(s, run, t) && n in R.Side(s, first).a.sw.pend
    requires Turns(s, run, first) > Place(R.Side(s, first).a.sw.pend, n)
    ensures HasTurn(s, run, first, n)
  {
    R.Always(s);
    ComesForward(s, run, t, first, n);
  }
}
