/** Every load, data access and local step of the program keeps the invariant. */
module ArcLoadSteps {
  import opened Common
  import opened ArcState
  import opened ArcCore
  import opened ArcSteps
  import opened ArcInvariant
  import opened ArcFrame
  import opened ArcQuietSteps

  lemma PeekKeeps(s: State, l: Label)
    requires Inv(s) && Enabled(s, l) && (l.PeekStrong? || l.PeekWeak?)
    ensures Inv(Next(s, l))
  {
    hide CoreInv, Pcs, Frees, Datas, Bounds, News, Intos, NewestFacts;
    AtPc(s, l.t);
    if l.PeekStrong? {
      StepLoadS(s, Next(s, l), l.t, l.v, l.k, false);
    } else {
      StepLoadW(s, Next(s, l), l.t, l.v, l.k, false);
    }
  }

  lemma UqMissKeeps(s: State, t: Tid, h: Hid, k: nat)
    requires Inv(s) && Enabled(s, UqMiss(t, h, k))
    ensures Inv(Next(s, UqMiss(t, h, k)))
  {
    hide CoreInv, Pcs, Frees, Datas, Bounds, News, Intos, NewestFacts;
    AtPc(s, t);
    StepLoadW(s, Next(s, UqMiss(t, h, k)), t, Root(h), k, false);
  }

  lemma UnwrapMissKeeps(s: State, t: Tid, h: Hid, k: nat)
    requires Inv(s) && Enabled(s, UnwrapMiss(t, h, k))
    ensures Inv(Next(s, UnwrapMiss(t, h, k)))
  {
    hide CoreInv, Pcs, Frees, Datas, Bounds, News, Intos, NewestFacts;
    AtPc(s, t);
    StepLoadS(s, Next(s, UnwrapMiss(t, h, k)), t, Root(h), k, false);
  }

  lemma MakeMutMissKeeps(s: State, t: Tid, h: Hid, k: nat)
    requires Inv(s) && Enabled(s, MakeMutMiss(t, h, k))
    ensures Inv(Next(s, MakeMutMiss(t, h, k)))
  {
    hide CoreInv, Pcs, Frees, Datas, Bounds, News, Intos, NewestFacts;
    AtPc(s, t);
    StepLoadS(s, Next(s, MakeMutMiss(t, h, k)), t, Root(h), k, false);
  }

  predicate DownLoadLabel(l: Label) { l.DownStart? || l.DownSpin? || l.DownRetry? }

  lemma DownLoadKeeps(s: State, l: Label)
    requires Inv(s) && Enabled(s, l) && DownLoadLabel(l)
    ensures Inv(Next(s, l))
  {
    hide CoreInv, Pcs, Frees, Datas, Bounds, News, Intos, NewestFacts;
    AtPc(s, l.t);
    StepLoadW(s, Next(s, l), l.t, Root(if l.DownStart? then l.h else s.pc[l.t].h), l.k, false);
  }

  /** Reading 0 from `strong` through a `Weak` of an allocation made by `Arc::new`: the count is 0
      now, because every write that put it back to 1 has been observed by all users. */
  lemma ZeroIsNow(s: State, t: Tid, w: Hid, k: nat)
    requires News(s) && s.fromNew && StrongOk(s.c) && MayUse(s.c, Wk(w), t) && t in s.c.cur
    requires s.c.cur[t].s <= k < |s.c.strong| && s.c.strong[k].val == 0
    ensures !s.c.phase.Counted? || s.c.roots == map[]
  {
    assert s.c.strong[k].live == {};
  }

  lemma UpReadKeeps(s: State, t: Tid, w: Hid, k: nat)
    requires Inv(s) && At(s, t) && MayUse(s.c, Wk(w), t) && CanReadS(s, t, k)
    requires s.pc[t].Idle? || s.pc[t].Up?
    ensures Inv(AfterUpRead(s, LoadS(s.c, t, Wk(w), k, false), t, w, s.c.strong[k].val))
  {
    hide Inv, LoadS;
    if s.c.strong[k].val == 0 { UpNoneKeeps(s, t, w, k); } else { UpSomeKeeps(s, t, w, k); }
  }

  lemma UpNoneKeeps(s: State, t: Tid, w: Hid, k: nat)
    requires Inv(s) && At(s, t) && MayUse(s.c, Wk(w), t) && CanReadS(s, t, k)
    requires (s.pc[t].Idle? || s.pc[t].Up?) && s.c.strong[k].val == 0
    ensures Inv(Go(s, LoadS(s.c, t, Wk(w), k, false), t, Idle).(nones := s.nones + {w}))
  {
    hide CoreInv, Pcs, Frees, Datas, Bounds, News, Intos, NewestFacts;
    AtPc(s, t);
    if s.fromNew { ZeroNow(s, t, w, k); }
    WeakId(s.c, t, w);
    StepLoadS(s, Go(s, LoadS(s.c, t, Wk(w), k, false), t, Idle).(nones := s.nones + {w}), t, Wk(w), k, false);
  }

  lemma UpSomeKeeps(s: State, t: Tid, w: Hid, k: nat)
    requires Inv(s) && At(s, t) && MayUse(s.c, Wk(w), t) && CanReadS(s, t, k)
    requires (s.pc[t].Idle? || s.pc[t].Up?) && s.c.strong[k].val > 0
    ensures Inv(Go(s, LoadS(s.c, t, Wk(w), k, false), t, Up(w, s.c.strong[k].val)))
  {
    hide CoreInv, Pcs, Frees, Datas, Bounds, News, Intos, NewestFacts;
    AtPc(s, t);
    StepLoadS(s, Go(s, LoadS(s.c, t, Wk(w), k, false), t, Up(w, s.c.strong[k].val)), t, Wk(w), k, false);
  }

  lemma WeakId(c: Core, t: Tid, w: Hid)
    requires NewestFacts(c) && MayUse(c, Wk(w), t)
    ensures w < c.nextH
  {
  }

  lemma ZeroNow(s: State, t: Tid, w: Hid, k: nat)
    requires Inv(s) && s.fromNew && MayUse(s.c, Wk(w), t) && t in s.c.cur
    requires s.c.cur[t].s <= k < |s.c.strong| && s.c.strong[k].val == 0
    ensures !s.c.phase.Counted?
  {
    hide Views, StrongOk, WeakOk, Seen, Cov, Holder, Visible, Pcs, Frees, Datas, Bounds, News, Intos;
    ZeroIsNow(s, t, w, k);
  }

  // ---- is_unique ----

  /** Having read the newest 1 under the lock, the lone user of the lone `Arc` knows every event. */
  lemma LockedKnowsAll(c: Core, d: Core, t: Tid, h: Hid)
    requires Shape(c) && Cov(c) && Holder(c) && c.lock == Some(t) && c.roots == map[h := {t}]
    requires |c.strong| > 0 && t in c.acq && d == LoadS(c, t, Root(h), |c.strong| - 1, true)
    ensures AllKnown(d, t)
  {
    forall e | 0 <= e < |d.src| ensures e in d.cur[t].ev {
      if e < |c.src| {
        assert Covered(c, e);
        if u :| MayUse(c, c.src[e], u) && Knows(c, u, e) { assert c.src[e].Root? && u == t; }
      }
    }
  }

  lemma UqLoadKeeps(s: State, t: Tid, k: nat)
    requires Inv(s) && Enabled(s, UqLoad(t, k))
    ensures Inv(Next(s, UqLoad(t, k)))
  {
    hide CoreInv, Pcs, Frees, Datas, Bounds, News, Intos, NewestFacts;
    AtPc(s, t);
    var d := Next(s, UqLoad(t, k));
    var h := s.pc[t].h;
    if s.pc[t].excl && s.c.strong[k].val == 1 { UqLoadExact(s, t, h, k); }
    StepLoadS(s, d, t, Root(h), k, true);
  }

  lemma UqLoadExact(s: State, t: Tid, h: Hid, k: nat)
    requires CoreInv(s.c) && s.c.phase.Counted? && s.c.lock == Some(t) && t in s.c.acq && t in s.c.cur
    requires h in s.c.roots && s.c.roots[h] == {t}
    requires s.c.cur[t].s <= k < |s.c.strong| && s.c.strong[k].val == 1
    ensures s.c.roots == map[h := {t}] && AllKnown(LoadS(s.c, t, Root(h), k, true), t)
  {
    hide Shape, Views, StrongOk, WeakOk, Seen, Cov, Holder, Visible;
    UniqueLoadIsExact(s.c, t, h, k);
    LockedKnowsAll(s.c, LoadS(s.c, t, Root(h), k, true), t, h);
  }

  // ---- make_mut's window ----

  lemma WindowLoadKeeps(s: State, t: Tid, k: nat)
    requires Inv(s) && Enabled(s, WindowLoad(t, k))
    ensures Inv(Next(s, WindowLoad(t, k)))
  {
    hide CoreInv, Pcs, Frees, Datas, Bounds, News, Intos, NewestFacts;
    AtPc(s, t);
    var d := Next(s, WindowLoad(t, k));
    WindowLoadIsExact(s.c, t, k);
    StepLoadW(s, d, t, Root(s.pc[t].h), k, false);
  }

  // ---- Weak::weak_count ----

  lemma WeakUserReads(c: Core, w: Hid, t: Tid, k: nat)
    requires CoreInv(c) && MayUse(c, Wk(w), t) && t in c.cur && c.cur[t].w <= k < |c.weak|
    ensures c.weak[k].val == |c.weak[k].live| + if c.weak[k].implicit then 1 else 0
    ensures !c.weak[k].implicit ==> c.phase.Released? && |c.strong| - 1 <= c.weak[k].view.s
  {
    hide Shape, Views, StrongOk, Cov, Holder, Visible;
    WeakUserLoad(c, w, t, k);
    assert WVal(c.weak[k]);
  }

  lemma CountedNow(c: Core, t: Tid, w: Hid, k: nat)
    requires CoreInv(c) && MayUse(c, Wk(w), t) && t in c.cur && t in c.acq && c.cur[t].w <= k < |c.weak|
    ensures var n, d := c.weak[k].val, LoadW(c, t, Wk(w), k, true);
            n == |c.weak[k].live| + 1 || (n == |c.weak[k].live| && c.phase.Released? && d.cur[t].s == |c.strong| - 1)
  {
    hide CoreInv, NewestFacts;
    WeakUserReads(c, w, t, k);
    QuietLoadW(c, t, Wk(w), k, true);
  }

  lemma CountStartKeeps(s: State, t: Tid, w: Hid, k: nat)
    requires Inv(s) && Enabled(s, CountStart(t, w, k))
    ensures Inv(Next(s, CountStart(t, w, k)))
  {
    hide CoreInv, Pcs, Frees, Datas, Bounds, News, Intos, NewestFacts, Enabled, Next;
    LateNext(s, CountStart(t, w, k));
    AtPc(s, t);
    var d := Next(s, CountStart(t, w, k));
    CountedNow(s.c, t, w, k);
    StepLoadW(s, d, t, Wk(w), k, true);
  }

  lemma ReleasedIsZero(c: Core)
    requires NewestFacts(c) && c.phase.Released?
    ensures LastS(c).val == 0
  {
  }

  lemma CountEndKeeps(s: State, t: Tid, k: nat)
    requires Inv(s) && Enabled(s, CountEnd(t, k))
    ensures Inv(Next(s, CountEnd(t, k)))
  {
    hide CoreInv, Pcs, Frees, Datas, Bounds, News, Intos, NewestFacts, Enabled, Next;
    LateNext(s, CountEnd(t, k));
    AtPc(s, t);
    if s.c.phase.Released? { ReleasedIsZero(s.c); }
    StepLoadS(s, Next(s, CountEnd(t, k)), t, Wk(s.pc[t].w), k, false);
  }

  // ---- local steps ----

  predicate LocalLabel(l: Label) { l.DownPanic? || l.UpPanic? || l.MutEnd? || l.CloneUnwinds? }

  lemma LocalKeeps(s: State, l: Label)
    requires Inv(s) && Enabled(s, l) && LocalLabel(l)
    ensures Inv(Next(s, l))
  {
    hide CoreInv, Pcs, Frees, Datas, Bounds, News, Intos, NewestFacts;
    AtPc(s, l.t);
    StepPc(s, Next(s, l), l.t, Idle);
  }

  lemma AbortKeeps(s: State, t: Tid)
    requires Inv(s) && Enabled(s, Abort(t))
    ensures Inv(Next(s, Abort(t)))
  {
    hide CoreInv, Frees, Datas, Bounds, News, Intos, PcOk;
    var d := Next(s, Abort(t));
    forall u | u in d.pc ensures PcOk(d, u) { AbortPc(s, d, u); }
    AbortRest(s, d);
  }

  lemma AbortPc(s: State, d: State, u: Tid)
    requires Sane(s) && u in s.pc && PcOk(s, u) && d == s.(aborted := true)
    ensures PcOk(d, u)
  {
  }

  lemma AbortRest(s: State, d: State)
    requires Sane(s) && Frees(s) && Datas(s) && Bounds(s) && News(s) && Intos(s) && d == s.(aborted := true)
    ensures Frees(d) && Datas(d) && Bounds(d) && News(d) && Intos(d)
  {
  }

  lemma SyncKeeps(s: State, t: Tid, u: Tid)
    requires Inv(s) && Enabled(s, Sync(t, u))
    ensures Inv(Next(s, Sync(t, u)))
  {
    hide CoreInv, Frees, Datas, Bounds, News, Intos, PcOk, NewestFacts, Undisturbed;
    var d := Next(s, Sync(t, u));
    AtPc(s, t);
    SyncCore(s.c, t, u);
    forall x | x in d.pc ensures PcOk(d, x) {
      SyncOther(s, d, t, u, x);
      LockFacts(s.c);
      OtherKeeps(s, d, x);
    }
    SyncRest(s, d, t, u);
  }

  lemma SyncCore(c: Core, t: Tid, u: Tid)
    requires CoreInv(c) && t in c.cur && u in c.cur
    ensures CoreInv(Learn(c, u, c.cur[t])) && NewestFacts(Learn(c, u, c.cur[t]))
  {
    hide Shape, StrongOk, WeakOk, Seen, Cov, Holder, Visible, Views;
    SyncGood(c, t, u);
    Newest(Learn(c, u, c.cur[t]));
  }

  lemma SyncGood(c: Core, t: Tid, u: Tid)
    requires CoreInv(c) && t in c.cur && u in c.cur
    ensures CoreInv(Learn(c, u, c.cur[t]))
  {
    hide Shape, StrongOk, WeakOk, Seen, Cov, Holder, Visible, Views, Good;
    Keeps.Basics(c);
    Keeps.LearnKeeps(c, u, c.cur[t]);
  }

  import Keeps = ArcCoreKeeps

  lemma SyncOther(s: State, d: State, t: Tid, u: Tid, x: Tid)
    requires Sane(s) && At(s, t) && At(s, u) && x in s.pc && d == s.(c := Learn(s.c, u, s.c.cur[t])) && NewestFacts(d.c)
    ensures Sane(d) && Undisturbed(s, d, x)
  {
  }

  lemma SyncRest(s: State, d: State, t: Tid, u: Tid)
    requires Sane(s) && At(s, t) && At(s, u) && d == s.(c := Learn(s.c, u, s.c.cur[t])) && Sane(d)
    requires Frees(s) && Datas(s) && Bounds(s) && News(s) && Intos(s)
    ensures Frees(d) && Datas(d) && Bounds(d) && News(d) && Intos(d)
  {
    if s.fromNew { RevivedGrows(s.c, d.c); }
  }
}
