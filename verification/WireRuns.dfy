/** In every run whose ids and types are ints of the source, every frame between the switches has the layout of
    `Wire`: the streams of frames that the runs speak of are the byte streams of the connection. */
module WireRuns {
  import opened MsgCore
  import opened MsgFacts
  import opened Wire
  import Framing
  import C = Conversation
  import R = Runs
  import S = Steps
  import T = TwoSwitches

  /** The ids and the type that a move brings in are ints of the source. */
  predicate NarrowMove(mv: T.Move) {
    match mv
    case Open(id, typ) => id <= INT_MAX && IsInt(typ)
    case Recv(newId) => newId <= INT_MAX
    case _ => true
  }

  predicate NarrowFrame(f: T.Frame) { f.Pack? ==> IsInt(f.p.typ) && |f.p.data| <= PACK_DATA_SIZE }

  predicate Narrow(nd: T.Node, out: seq<T.Frame>) {
    && (forall n | n in nd.past :: n <= INT_MAX)
    && (forall n | n in nd.sw.msgs :: IsInt(nd.sw.msgs[n].typ))
    && (forall f | f in out :: NarrowFrame(f))
  }

  // ---------- one step ----------

  /** A packet on the send queue of a message of this switch. */
  lemma Queued(s: T.System, n: nat)
    requires T.Inv(s) && n in s.a.sw.msgs && s.a.sw.msgs[n].writQ != []
    ensures var p := s.a.sw.msgs[n].writQ[0]; p.typ == s.a.sw.msgs[n].typ && |p.data| <= PACK_DATA_SIZE
  {
    hide T.Inv;
    S.OkAt(s, n);
    assert s.a.sw.msgs[n].writQ[0] in s.a.sw.msgs[n].writQ;
  }

  lemma StepNarrow(s: T.System, mv: T.Move)
    requires T.Inv(s) && T.Enabled(s, mv) && T.Safe(s, mv) && NarrowMove(mv)
    requires Narrow(s.a, s.ab) && Narrow(s.b, s.ba)
    ensures var t := T.Step(s, mv); Narrow(t.a, t.ab) && Narrow(t.b, t.ba)
  {
    hide T.Inv, T.Guarded, T.Step, T.Lookup, C.Safe, RespExpected;
    var t := T.Step(s, mv);
    S.StepRest(s, mv);
    forall n | n in t.a.sw.msgs ensures IsInt(t.a.sw.msgs[n].typ) {
      S.SameTyp(s, mv, n);
      if mv.Recv? && s.ba[0].Pack? { assert s.ba[0] in s.ba; }
    }
    forall f | f in t.ab ensures NarrowFrame(f) {
      S.StepSent(s, mv, f);
      if f in s.a.sw.resps {
        R.RespsOnly(s);
      } else if f !in s.ab {
        Queued(s, s.a.sw.pend[0]);
      }
    }
  }

  // ---------- whole runs ----------

  predicate NarrowRun(run: seq<R.Event>) { forall i | 0 <= i < |run| :: NarrowMove(run[i].mv) }

  lemma {:induction false} RunNarrow(s: T.System, run: seq<R.Event>, t: T.System)
    requires T.Inv(s) && R.Reaches(s, run, t) && NarrowRun(run) && Narrow(s.a, s.ab) && Narrow(s.b, s.ba)
    ensures T.Inv(t) && Narrow(t.a, t.ab) && Narrow(t.b, t.ba)
    decreases |run|
  {
    hide T.Inv, Narrow, NarrowMove, T.Possible, T.Guarded, T.Safe, T.Step;
    if run != [] {
      var s0 := R.Side(s, run[0].first);
      T.SwapInv(s);
      T.StepKeeps(s0, run[0].mv);
      T.SwapInv(T.Step(s0, run[0].mv));
      StepNarrow(s0, run[0].mv);
      RunNarrow(R.Side(T.Step(s0, run[0].mv), run[0].first), run[1..], t);
    }
  }

  lemma FramesFit(t: T.System)
    requires T.Inv(t) && Narrow(t.a, t.ab) && Narrow(t.b, t.ba)
    ensures AllFit(t.ab)
  {
    hide C.Inv, T.View;
    forall i | 0 <= i < |t.ab| ensures Fits(t.ab[i]) {
      var f := t.ab[i];
      assert f in t.ab && NarrowFrame(f) && f in t.ab + t.a.sw.resps;
      var h := T.Key(f);
      assert T.Known(t.a, h);
      if h > 0 { assert T.Known(t.b, -h); }
    }
  }

  /** The chunks are those of the frames, and split no type word; `junk` lies behind them in memory. */
  predicate Delivers(fs: seq<T.Frame>, chunks: seq<Bytes>, junk: Bytes)
    requires AllFit(fs)
  {
    && Framing.Concat(chunks) == Framing.Stream(Raws(fs)) && !Framing.SplitsWord(Raws(fs), 0, chunks)
    && |junk| >= 3 + Framing.MAX_BODY
  }

  /** What is between the switches in any such run, written out in bytes and delivered in chunks that split no
      type word, is read by the other switch as just those frames. */
  lemma RunsOnBytes(run: seq<R.Event>, t: T.System, chunks: seq<Bytes>, junk: Bytes)
    requires R.Reaches(T.START, run, t) && NarrowRun(run)
    ensures AllFit(t.ab) && AllFit(t.ba)
    ensures Delivers(t.ab, chunks, junk) ==>
      var o := Framing.TakeAll(Framing.IDLE, chunks, junk);
      o.Running? && o.st == Framing.IDLE && Framing.AllWhole(o.out) && Frames(o.out) == t.ab
  {
    hide T.Inv, Narrow, Fits, Framing.Stream, Framing.SplitsWord, Framing.TakeAll, Framing.Concat;
    T.StartInv();
    StartNarrow();
    RunNarrow(T.START, run, t);
    FramesFit(t);
    T.SwapInv(t);
    FramesFit(T.Swap(t));
    if Delivers(t.ab, chunks, junk) { WireIsFifo(t.ab, chunks, junk); }
  }

  lemma StartNarrow()
    ensures Narrow(T.START.a, T.START.ab) && Narrow(T.START.b, T.START.ba)
  {
  }
}
