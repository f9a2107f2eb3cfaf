/** Where the messages, the history and the frames of a switch after a step come from: what a claim about
    single messages and frames needs to hold in every run. */
module Steps {
  import opened MsgCore
  import opened MsgFacts
  import opened TwoSwitches
  import C = Conversation
  import R = Runs

  /** The message a step works on, its record before (for a new message, as it is created) and the work. */
  datatype Job = Job(n: nat, before: Msg, w: Work)

  /** A received packet finds its message, or makes one. */
  function Target(s: System, newId: nat, p: Packet): (r: (nat, Msg))
    requires s.ba != [] && s.ba[0] == Pack(p) && (Lookup(s.a.sw, p.msgid) == None ==> p.msgid < 0)
  {
    match Lookup(s.a.sw, p.msgid)
    case Some(n) => (n, s.a.sw.msgs[n])
    case None => (newId, MsgCore.Fresh(newId, -p.msgid, p.typ))
  }

  function Doing(s: System, mv: Move): Option<Job>
    requires Possible(s, mv) && Safe(s, mv)
  {
    match mv
    case Open(_, _) => None
    case Retire(_) => None
    case User(n, act) => Some(Job(n, s.a.sw.msgs[n], UserWork(s.a.sw.msgs[n], act)))
    case Send =>
      if s.a.sw.resps != [] then None else
        var n := s.a.sw.pend[0];
        Some(Job(n, s.a.sw.msgs[n], PopWrit(Start(s.a.sw.msgs[n]))))
    case Recv(newId) =>
      match s.ba[0]
      case Pack(p) => var (n, m) := Target(s, newId, p); Some(Job(n, m, RecvPack(m, p)))
      case Resp(id, st) =>
        match Lookup(s.a.sw, id)
        case None => None
        case Some(n) => Some(Job(n, s.a.sw.msgs[n], RecvResp(s.a.sw.msgs[n], st)))
  }

  /** Message k has the record m after the step: it was so before, the step opened it, or worked on it. */
  predicate Came(s: System, mv: Move, k: nat, m: Msg)
    requires Possible(s, mv) && Safe(s, mv)
  {
    || (k in s.a.sw.msgs && m == s.a.sw.msgs[k])
    || (mv.Open? && k == mv.id && m == MsgCore.Fresh(k, 0, mv.typ).(connected := true))
    || var job := Doing(s, mv); job.Some? && k == job.value.n && m == job.value.w.m && !job.value.w.freed
  }

  /** The step wrote down the response f: it was there before, or the work emitted it. */
  predicate Answers(s: System, mv: Move, f: Frame)
    requires Possible(s, mv) && Safe(s, mv)
  {
    || f in s.a.sw.resps
    || var job := Doing(s, mv); job.Some? && f in Stamps(job.value.before.Stamp(), job.value.w.emit)
  }

  lemma UpdateCame(nd: Node, n: nat, w: Work, x: C.End, k: nat)
    requires n in nd.sw.msgs && n in nd.past && k in Update(nd, n, w, x).sw.msgs
    ensures var m := Update(nd, n, w, x).sw.msgs[k]; (k != n && k in nd.sw.msgs && m == nd.sw.msgs[k]) || (k == n && m == w.m && !w.freed)
  {
  }

  lemma UpdateAnswers(nd: Node, n: nat, w: Work, x: C.End)
    requires n in nd.sw.msgs && n in nd.past
    ensures Update(nd, n, w, x).sw.resps == nd.sw.resps + Stamps(nd.sw.msgs[n].Stamp(), w.emit)
  {
  }

  /** The switch as the work finds it. */
  predicate Staged(s: System, job: Job, nd: Node) {
    && job.n in nd.sw.msgs && job.n in nd.past && nd.sw.msgs[job.n] == job.before && nd.sw.resps == s.a.sw.resps && nd.sw.pend == s.a.sw.pend
    && (forall k | k in nd.sw.msgs :: k == job.n || (k in s.a.sw.msgs && nd.sw.msgs[k] == s.a.sw.msgs[k]))
  }

  /** A step does the work on its message, and nothing to the others. */
  lemma StepIs(s: System, mv: Move) returns (nd: Node, x: C.End)
    requires Possible(s, mv) && Safe(s, mv) && Doing(s, mv).Some?
    ensures var job := Doing(s, mv).value;
      && Staged(s, job, nd)
      && (mv.Send? ==> Step(s, mv).a == Unlist(Update(nd, job.n, job.w, x)))
      && (!mv.Send? ==> Step(s, mv).a == Update(nd, job.n, job.w, x))
  {
    hide Update, UserWork, PopWrit, RecvPack, RecvResp, RespExpected, C.Step, Unlist;
    var job := Doing(s, mv).value;
    match mv
    case User(n, act) => nd, x := s.a, C.Step(Alone(s.a, n), act).a;
    case Send =>
      nd, x := s.a, C.Absorb(EndOf(s.a, job.n), job.w);
      x := x.(gotDiscon := x.gotDiscon || false);
    case Recv(newId) => nd, x := RecvStepIs(s, newId);
  }

  lemma RecvStepIs(s: System, newId: nat) returns (nd: Node, x: C.End)
    requires Possible(s, Recv(newId)) && Safe(s, Recv(newId)) && Doing(s, Recv(newId)).Some?
    ensures var job := Doing(s, Recv(newId)).value; Staged(s, job, nd) && Step(s, Recv(newId)).a == Update(nd, job.n, job.w, x)
  {
    hide Update, RecvPack, RecvResp, RespExpected;
    var job := Doing(s, Recv(newId)).value;
    var f := s.ba[0];
    nd := if Lookup(s.a.sw, Key(f)) == None then Create(s.a, newId, -f.p.msgid, f.p.typ) else s.a;
    assert nd.sw.msgs[job.n] == job.before;
    x := C.Absorb(EndOf(nd, job.n), job.w);
    x := x.(gotDiscon := x.gotDiscon || (f.Resp? && f.st.Discon?));
  }

  lemma StepCame(s: System, mv: Move, k: nat)
    requires Possible(s, mv) && Safe(s, mv) && k in Step(s, mv).a.sw.msgs
    ensures Came(s, mv, k, Step(s, mv).a.sw.msgs[k])
  {
    hide Update, Doing, Safe, Step;
    if Doing(s, mv).Some? {
      var nd, x := StepIs(s, mv);
      var job := Doing(s, mv).value;
      UpdateCame(nd, job.n, job.w, x, k);
    } else {
      IdleStep(s, mv);
    }
  }

  /** Without work a step opens a message, forgets a history, or moves a response. */
  lemma IdleStep(s: System, mv: Move)
    requires Possible(s, mv) && Safe(s, mv) && Doing(s, mv) == None
    ensures var t := Step(s, mv); forall f | f in t.a.sw.resps :: f in s.a.sw.resps
    ensures var t := Step(s, mv);
      t.a.sw.msgs == if mv.Open? then s.a.sw.msgs[mv.id := MsgCore.Fresh(mv.id, 0, mv.typ).(connected := true)] else s.a.sw.msgs
  {
    hide Update, UserWork, PopWrit, RecvPack, RecvResp, RespExpected, C.Step;
  }

  lemma StepAnswers(s: System, mv: Move, f: Frame)
    requires Possible(s, mv) && Safe(s, mv) && f in Step(s, mv).a.sw.resps
    ensures Answers(s, mv, f)
  {
    hide Update, Doing, Safe, Step;
    if Doing(s, mv).Some? {
      var nd, x := StepIs(s, mv);
      var job := Doing(s, mv).value;
      UpdateAnswers(nd, job.n, job.w, x);
    } else {
      IdleStep(s, mv);
    }
  }

  /** The frames that a step adds are responses and the packet it takes off a send queue. */
  lemma StepSent(s: System, mv: Move, f: Frame)
    requires Possible(s, mv) && Safe(s, mv) && f in Step(s, mv).ab
    ensures f in s.ab || f in s.a.sw.resps
      || (mv.Send? && s.a.sw.resps == [] && f == Pack(s.a.sw.msgs[s.a.sw.pend[0]].writQ[0]))
  {
    hide Update, React, UserWork, C.Step, Create, Unlist;
  }

  /** A step leaves the other switch and its frames as they are, but for the frame it takes and a history
      that is forgotten; new ids are those it names. */
  lemma StepRest(s: System, mv: Move)
    requires Possible(s, mv) && Safe(s, mv)
    ensures var t := Step(s, mv);
      && t.b.sw == s.b.sw && (forall n | n in t.b.past :: n in s.b.past) && (!mv.Retire? ==> t.b == s.b)
      && (t.ba == s.ba || (mv.Recv? && t.ba == s.ba[1..]))
      && (forall n | n in t.a.past :: n in s.a.past || R.GivesOut(s, mv, n))
  {
    hide Apply, UserWork, PopWrit, RecvPack, RecvResp, RespExpected, C.Step;
  }

  /** A step that forgets nothing keeps the history of every id it does not give out, and who opened it. */
  lemma PastKept(s: System, mv: Move, n: nat)
    requires Possible(s, mv) && Safe(s, mv) && !mv.Retire? && n in s.a.past && !R.GivesOut(s, mv, n)
    ensures var t := Step(s, mv); n in t.a.past && t.a.past[n].origin == s.a.past[n].origin && StampOf(t.a, n) == StampOf(s.a, n)
  {
    hide Apply, UserWork, PopWrit, RecvPack, RecvResp, RespExpected, C.Step;
  }

  /** The id that a step gives out gets the stamp of a message opened here, or of the packet that creates it. */
  lemma PastMade(s: System, mv: Move, n: nat)
    requires Possible(s, mv) && Safe(s, mv) && R.GivesOut(s, mv, n) && n > 0
    ensures var t := Step(s, mv); n in t.a.past && (mv.Open? ==> StampOf(t.a, n) == -(n as int))
    ensures mv.Recv? ==> s.ba[0].p.msgid < 0 && StampOf(Step(s, mv).a, n) == -s.ba[0].p.msgid
  {
    hide Apply, RecvPack;
  }

  // ---------- what the invariant says of the messages ----------

  lemma OkAt(s: System, n: nat)
    requires Inv(s) && n in s.a.sw.msgs
    ensures n in s.a.past && MsgOk(s.a.sw.msgs[n], StampOf(s.a, n))
  {
    hide Inv, C.Inv, MsgOk, View, EndAt;
    UserAt(s, n);
    ActiveStamp(s, n);
    ViewLive(s, n);
    LiveOk(View(s, StampOf(s.a, n)));
  }

  lemma ViewLive(s: System, n: nat)
    requires n in s.a.past && n in s.a.sw.msgs && EndAt(s.a, StampOf(s.a, n)) == EndOf(s.a, n)
    ensures var c := View(s, StampOf(s.a, n)); c.a.stage == C.Live(s.a.sw.msgs[n]) && c.a.h == StampOf(s.a, n)
  {
    hide EndAt;
  }

  /** What the work of a step keeps of its message. */
  lemma JobConforms(s: System, mv: Move)
    requires Inv(s) && Enabled(s, mv) && Safe(s, mv) && Doing(s, mv).Some?
    ensures var job := Doing(s, mv).value; Conforms(job.before, job.w)
  {
    hide Inv, UserWork, PopWrit, RecvPack, RecvResp, RespExpected, MsgOk, Conforms, DrainSafe;
    match mv
    case User(n, act) =>
      OkAt(s, n);
      UserConforms(s.a.sw.msgs[n], StampOf(s.a, n), act);
    case Send =>
      FirstMaySend(s);
      PopConforms(s.a.sw.msgs[s.a.sw.pend[0]], StampOf(s.a, s.a.sw.pend[0]));
    case Recv(newId) => RecvConforms(s, newId);
  }

  lemma RecvConforms(s: System, newId: nat)
    requires Inv(s) && Enabled(s, Recv(newId)) && Safe(s, Recv(newId)) && Doing(s, Recv(newId)).Some?
    ensures var job := Doing(s, Recv(newId)).value; Conforms(job.before, job.w)
  {
    hide Inv, RecvPack, RecvResp, RespExpected, Conforms, DrainSafe, C.Inv, Absorbed, Answered;
    var f := s.ba[0];
    match Lookup(s.a.sw, Key(f)) {
      case Some(n) => RecvFoundWork(s, newId, n);
      case None => NewReady(newId, f.p);
    }
  }

  /** A message keeps its type; a new one has the type it is opened or first received with. */
  lemma SameTyp(s: System, mv: Move, k: nat)
    requires Inv(s) && Enabled(s, mv) && Safe(s, mv) && k in Step(s, mv).a.sw.msgs
    ensures var typ := Step(s, mv).a.sw.msgs[k].typ;
      || (k in s.a.sw.msgs && typ == s.a.sw.msgs[k].typ)
      || (mv.Open? && typ == mv.typ)
      || (mv.Recv? && s.ba[0].Pack? && typ == s.ba[0].p.typ)
  {
    hide Inv, Step, UserWork, PopWrit, RecvPack, RecvResp, RespExpected, C.Safe;
    StepCame(s, mv, k);
    if Doing(s, mv).Some? { JobConforms(s, mv); }
  }
}
