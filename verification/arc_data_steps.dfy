/** Accesses to the data, acquire fences and the final free keep the invariant. */
module ArcDataSteps {
  import opened Common
  import opened ArcState
  import opened ArcCore
  import opened ArcSteps
  import opened ArcInvariant
  import opened ArcFrame
  import opened ArcQuietSteps

  lemma ReadKeeps(s: State, l: Label)
    requires Inv(s) && Enabled(s, l) && (l.ReadData? || l.CloneData?)
    ensures Inv(Next(s, l))
  {
    hide CoreInv, Pcs, Frees, Datas, Bounds, News, Intos, NewestFacts, Quiet;
    var t := l.t;
    AtPc(s, t);
    var d := Next(s, l);
    StepUse(s, d, t, if l.ReadData? then l.h else s.pc[t].h, false);
    QuietLocal(s, d, t);
  }

  lemma MutWriteKeeps(s: State, t: Tid)
    requires Inv(s) && Enabled(s, MutWrite(t))
    ensures Inv(Next(s, MutWrite(t)))
  {
    hide CoreInv, Pcs, Frees, Datas, Bounds, News, Intos, NewestFacts, Quiet;
    AtPc(s, t);
    var d := Next(s, MutWrite(t));
    StepUse(s, d, t, s.pc[t].h, true);
    QuietLocal(s, d, t);
  }

  lemma WriteUniqueKeeps(s: State, t: Tid, b: Hid)
    requires Inv(s) && Enabled(s, WriteUnique(t, b))
    ensures Inv(Next(s, WriteUnique(t, b)))
  {
    hide CoreInv, Pcs, Frees, Datas, Bounds, News, Intos, NewestFacts, Quiet;
    AtPc(s, t);
    var d := Next(s, WriteUnique(t, b));
    LoneRoot(s.c, t, b);
    StepUse(s, d, t, b, true);
    QuietLocal(s, d, t);
  }

  lemma LoneRoot(c: Core, t: Tid, b: Hid)
    requires NewestFacts(c) && b in c.roots && c.roots[b] == {t} && !c.phase.Counted?
    ensures c.roots.Keys == {b} && c.roots == map[b := {t}]
  {
    assert |c.roots.Keys| == 1 || c.roots == map[];
    SoleElement(c.roots.Keys, b);
  }

  lemma ConsumeKeeps(s: State, t: Tid)
    requires Inv(s) && Enabled(s, Consume(t))
    ensures Inv(Next(s, Consume(t)))
  {
    hide CoreInv, Pcs, Frees, Datas, Bounds, News, Intos, NewestFacts, Quiet, Enabled, Next;
    LateNext(s, Consume(t));
    AtPc(s, t);
    var d := Next(s, Consume(t));
    StepUse(s, d, t, s.pc[t].h, true);
    QuietPcs(s, d, t);
    ConsumeRest(s, d, t);
  }

  lemma ConsumeRest(s: State, d: State, t: Tid)
    requires Sane(s) && Sane(d) && t in s.pc && s.pc[t].Consuming? && HeldBy(s, t, s.pc[t].h, true) && s.data.Whole?
    requires Enabled(s, Consume(t)) && d == Next(s, Consume(t))
    requires Frees(s) && Datas(s) && Bounds(s) && News(s) && Intos(s)
    ensures Frees(d) && Datas(d) && Bounds(d) && News(d) && Intos(d)
  {
    hide Frees, News, Intos;
    SameFrees(s, d, t);
    ConsumeNews(s, d, t);
    assert d.pc.Keys == s.pc.Keys;
  }

  lemma ConsumeNews(s: State, d: State, t: Tid)
    requires Sane(s) && Sane(d) && t in s.pc && s.pc[t].Consuming? && HeldBy(s, t, s.pc[t].h, true)
    requires Enabled(s, Consume(t)) && d == Next(s, Consume(t)) && News(s) && Intos(s)
    ensures News(d) && Intos(d)
  {
    if s.fromNew { RevivedGrows(s.c, d.c); }
  }

  lemma CycInitKeeps(s: State, t: Tid, b: Hid)
    requires Inv(s) && Enabled(s, CycInit(t, b))
    ensures Inv(Next(s, CycInit(t, b)))
  {
    hide CoreInv, Pcs, Frees, Datas, Bounds, News, Intos, NewestFacts, Quiet, Enabled, Next;
    LateNext(s, CycInit(t, b));
    AtPc(s, t);
    LoneRoot(s.c, t, b);
    var d := Next(s, CycInit(t, b));
    StepUse(s, d, t, b, true);
    NotYetInit(s, t, b);
    QuietPcs(s, d, t);
    CycInitRest(s, d, t, b);
  }

  lemma CycUser(s: State)
    requires Sane(s) && Pcs(s)
    ensures forall u :: u in s.pc && s.pc[u].CycReady? ==> s.c.roots == map[s.pc[u].b := {u}]
  {
    forall u | u in s.pc && s.pc[u].CycReady? ensures s.c.roots == map[s.pc[u].b := {u}] { assert PcOk(s, u); }
  }

  /** While `new_cyclic` runs its closure the data is not yet written. */
  lemma NotYetInit(s: State, t: Tid, b: Hid)
    requires Inv(s) && s.c.phase.CyclicB? && Owns(s, t, b) && t in s.pc && s.pc[t].Idle?
    ensures s.data.Uninit?
  {
    hide CoreInv, Pcs, Frees, Bounds, News, Intos;
    CycUser(s);
  }

  lemma CycInitRest(s: State, d: State, t: Tid, b: Hid)
    requires Sane(s) && Sane(d) && Enabled(s, CycInit(t, b)) && d == Next(s, CycInit(t, b)) && s.data.Uninit?
    requires Frees(s) && Datas(s) && Bounds(s) && News(s) && Intos(s)
    ensures Frees(d) && Datas(d) && Bounds(d) && News(d) && Intos(d)
  {
    hide Frees;
    SameFrees(s, d, t);
    assert d.pc[t].CycReady?;
    assert d.pc.Keys == s.pc.Keys;
  }

  // ---- fences and the free ----

  lemma FenceStrongKeeps(s: State, t: Tid)
    requires Inv(s) && Enabled(s, FenceStrong(t))
    ensures Inv(Next(s, FenceStrong(t)))
  {
    hide CoreInv, Pcs, Frees, Datas, Bounds, News, Intos, NewestFacts, QuietCore, PcOk, QuietSide, Quiet;
    AtPc(s, t);
    var d := Next(s, FenceStrong(t));
    QuietFence(s.c, t);
    CoreOf(s.c, d.c);
    LockFacts(s.c);
    FenceQuiet(s, d, t);
    FenceStrongPc(s, d, t);
    QuietLocal(s, d, t);
  }

  lemma FenceStrongPc(s: State, d: State, t: Tid)
    requires Sane(s) && Sane(d) && Enabled(s, FenceStrong(t)) && d == Next(s, FenceStrong(t)) && PcOk(s, t)
    requires s.counted.0 == s.counted.1
    requires s.c.phase.Held? && s.c.phase.t == t ==> KeeperPc(s, s.pc[t])
    ensures PcOk(d, t) && QuietSide(s, d, t)
  {
  }

  lemma CoreOf(c: Core, d: Core)
    requires QuietCore(c, d)
    ensures CoreInv(d)
  {
  }

  lemma FenceQuiet(s: State, d: State, t: Tid)
    requires Sane(s) && t in s.pc && t in d.pc && d.c == Fence(s.c, t) && QuietCore(s.c, d.c) && d.pc == s.pc[t := d.pc[t]]
    requires d == s.(c := d.c, pc := d.pc)
    requires s.c.phase.Held? ==> OnlyRoot(s.c, s.c.phase.t)
    ensures Sane(d) && Quiet(s, d, t)
  {
    hide CoreInv;
    if s.c.phase.Held? && s.c.phase.t == t {
      if h :| h in s.c.roots { assert MayUse(s.c, Root(h), t); }
      assert |s.c.roots.Keys| == 1;
    }
  }

  lemma FenceWeakKeeps(s: State, t: Tid)
    requires Inv(s) && Enabled(s, FenceWeak(t))
    ensures Inv(Next(s, FenceWeak(t)))
  {
    hide CoreInv, Pcs, Frees, Datas, Bounds, News, Intos, NewestFacts, QuietCore, PcOk, QuietSide, Quiet;
    AtPc(s, t);
    var d := Next(s, FenceWeak(t));
    QuietFence(s.c, t);
    CoreOf(s.c, d.c);
    LockFacts(s.c);
    FenceQuiet(s, d, t);
    FenceWeakPc(s, d, t);
    QuietLocal(s, d, t);
  }

  lemma FenceWeakPc(s: State, d: State, t: Tid)
    requires Sane(s) && Sane(d) && Enabled(s, FenceWeak(t)) && d == Next(s, FenceWeak(t)) && PcOk(s, t)
    requires s.counted.0 == s.counted.1
    ensures PcOk(d, t) && QuietSide(s, d, t)
  {
    hide Enabled, Next;
    LateNext(s, FenceWeak(t));
  }

  lemma FreeKeeps(s: State, t: Tid)
    requires Inv(s) && Enabled(s, Free(t))
    ensures Inv(Next(s, Free(t)))
  {
    hide CoreInv, Pcs, Frees, Datas, Bounds, News, Intos, NewestFacts, PcOk, Quiet;
    AtPc(s, t);
    var d := Next(s, Free(t));
    InRange(s.c);
    FreeQuiet(s, d, t);
    QuietPcs(s, d, t);
    assert Freed(s, d, t);
    FreeRest(s, d, t);
  }

  lemma FreeQuiet(s: State, d: State, t: Tid)
    requires Sane(s) && Enabled(s, Free(t)) && d == Next(s, Free(t)) && PcOk(s, t)
    requires forall u :: u in s.c.cur ==> s.c.cur[u].s < |s.c.strong|
    ensures Sane(d) && Quiet(s, d, t) && PcOk(d, t)
  {
  }

  lemma FreeRest(s: State, d: State, t: Tid)
    requires Sane(s) && Sane(d) && Freed(s, d, t) && PcOk(s, t)
    requires Frees(s) && Datas(s) && Bounds(s) && News(s) && Intos(s)
    ensures Frees(d) && Datas(d) && Bounds(d) && News(d) && Intos(d)
  {
    hide Frees, Datas, Bounds, News, Intos, PcOk;
    FreedFrees(s, d, t);
    FreedDatas(s, d, t);
    FreedOthers(s, d, t);
  }

  /** `d` is `s` after `t` deallocated the block. */
  predicate Freed(s: State, d: State, t: Tid) {
    t in s.pc && s.pc[t].Freeing? && d == s.(pc := s.pc[t := Idle], freed := s.freed + 1)
  }

  lemma FreedFrees(s: State, d: State, t: Tid)
    requires Sane(s) && Sane(d) && Freed(s, d, t) && PcOk(s, t) && Frees(s)
    ensures Frees(d)
  {
  }

  lemma FreedDatas(s: State, d: State, t: Tid)
    requires Sane(s) && Sane(d) && Freed(s, d, t) && Datas(s)
    ensures Datas(d)
  {
    if u :| u in s.pc && s.pc[u].CycReady? { assert d.pc[u].CycReady?; }
  }

  lemma FreedOthers(s: State, d: State, t: Tid)
    requires Sane(s) && Sane(d) && Freed(s, d, t) && Bounds(s) && News(s) && Intos(s)
    ensures Bounds(d) && News(d) && Intos(d)
  {
    assert d.pc.Keys == s.pc.Keys;
  }
}
