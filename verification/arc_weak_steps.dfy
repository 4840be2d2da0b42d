/** Steps that move the weak count, and handles changing users, keep the invariant. */
module ArcWeakSteps {
  import opened Common
  import opened ArcState
  import opened ArcCore
  import opened ArcWeakKeeps
  import opened ArcSteps
  import opened ArcInvariant
  import opened ArcFrame
  import opened ArcQuietSteps
  import opened ArcStrongSteps
  import Keeps = ArcCoreKeeps

  /** `t` appended a write to `weak`; handles, phase and lock are said separately. */
  ghost predicate MovedW(c: Core, d: Core, t: Tid) {
    && |c.strong| > 0 && |c.weak| > 0 && |d.weak| > 0 && t in c.cur && t in d.cur
    && d.strong == c.strong && d.cur == c.cur[t := d.cur[t]] && Leq(c.cur[t], d.cur[t])
    && d == c.(weak := d.weak, cur := d.cur, acq := d.acq, src := d.src, roots := d.roots, weaks := d.weaks,
               phase := d.phase, lock := d.lock, nextH := d.nextH)
    && d.acq.Keys == c.acq.Keys && (forall u :: u in c.acq ==> Leq(c.acq[u], d.acq[u])) && c.nextH <= d.nextH
    && CoreInv(d) && NewestFacts(d)
  }

  lemma MovedWSane(s: State, d: State, t: Tid)
    requires Sane(s) && t in s.pc && t in d.pc && MovedW(s.c, d.c, t) && d.pc == s.pc[t := d.pc[t]]
    ensures Sane(d) && CoreInv(d.c) && NewestFacts(d.c)
    ensures forall u :: u in d.c.cur ==> d.c.cur[u].s < |d.c.strong|
  {
    hide CoreInv, Leq;
    assert d.c.cur.Keys == s.c.cur.Keys;
  }

  /** What a step of `t` through `v` may do to the handles when it moves the weak count. */
  ghost predicate WeakMoves(s: State, d: State, t: Tid, v: Via) {
    && MayUse(s.c, v, t) && d.overS == s.overS && d.overW <= s.overW + {t} && d.freed == s.freed
    && ((d.c.phase == s.c.phase && d.c.roots == s.c.roots)
        || (v.Root? && s.c.roots == map[v.h := {t}] && d.c.phase.Released? && d.c.roots == map[]
            && (s.c.phase.Held? ==> s.c.phase.t == t) && !s.c.phase.Counted?))
    && (v.Wk? ==> d.c.phase == s.c.phase && d.data == s.data)
    && (forall w :: w in s.c.weaks ==> s.c.weaks[w] == {t} || (w in d.c.weaks && d.c.weaks[w] == s.c.weaks[w]))
    && (forall w :: w in d.c.weaks && w !in s.c.weaks ==> d.c.weaks[w] == {t} && w == s.c.nextH)
    && (forall w :: w in d.c.weaks && w in s.c.weaks ==> d.c.weaks[w] == s.c.weaks[w])
    && (d.c.lock == s.c.lock || (s.c.lock in {None, Some(t)} && d.c.lock in {None, Some(t)}))
  }

  lemma WeakActs(s: State, d: State, t: Tid, v: Via)
    requires Sane(s) && Sane(d) && t in s.pc && t in d.pc && d.pc == s.pc[t := d.pc[t]]
    requires MovedW(s.c, d.c, t) && WeakMoves(s, d, t, v)
    requires forall u :: u in d.c.cur ==> d.c.cur[u].s < |d.c.strong|
    ensures Acted(s, d, t, v)
  {
    hide CoreInv, NewestFacts;
    assert |map[v.h := {t}]| == 1;
  }

  /** Someone who uses a handle after the step used one before it. */
  predicate Uses(c: Core, u: Tid) {
    (exists h :: h in c.roots && u in c.roots[h]) || (exists w :: w in c.weaks && u in c.weaks[w])
  }

  lemma RevivedUsers(c: Core, d: Core)
    requires Revived(c) && d.strong == c.strong && d.cur.Keys == c.cur.Keys
    requires forall v, u :: MayUse(d, v, u) ==> Uses(c, u)
    requires forall u :: u in c.cur ==> c.cur[u].s <= d.cur[u].s
    ensures Revived(d)
  {
    forall m, v, u | 0 <= m < |d.strong| - 1 && d.strong[m].live == {} && MayUse(d, v, u) && u in d.cur
      ensures m < d.cur[u].s
    {
      assert Uses(c, u);
      if h :| h in c.roots && u in c.roots[h] {
        assert MayUse(c, Root(h), u);
      } else {
        var w :| w in c.weaks && u in c.weaks[w];
        assert MayUse(c, Wk(w), u);
      }
    }
  }

  lemma UsersBefore(s: State, d: State, t: Tid, v: Via)
    requires WeakMoves(s, d, t, v)
    ensures forall x, u :: MayUse(d.c, x, u) ==> Uses(s.c, u)
  {
    forall x, u | MayUse(d.c, x, u) ensures Uses(s.c, u) {
      if x.Root? {
        assert x.h in s.c.roots && u in s.c.roots[x.h];
      } else if x.h in s.c.weaks {
        assert u in s.c.weaks[x.h];
      } else {
        assert u == t && MayUse(s.c, v, t);
      }
    }
  }

  lemma WeakNews(s: State, d: State, t: Tid, v: Via)
    requires Sane(s) && Sane(d) && t in s.pc && MovedW(s.c, d.c, t) && WeakMoves(s, d, t, v) && News(s)
    requires d.fromNew == s.fromNew
    requires forall w :: w in d.nones ==> w in s.nones || (w == s.c.nextH < d.c.nextH && v.Wk? && v.h in s.nones)
    requires s.fromNew && d.c.phase.Released? ==> d.data.Gone?
    ensures News(d)
  {
    hide CoreInv, NewestFacts, Leq;
    if s.fromNew {
      UsersBefore(s, d, t, v);
      LeqMeans(s.c.cur[t], d.c.cur[t]);
      RevivedUsers(s.c, d.c);
      NonesKeep(s, d, t, v);
    }
  }

  lemma LeqMeans(a: View, b: View)
    requires Leq(a, b)
    ensures a.s <= b.s
  {
  }

  lemma NonesKeep(s: State, d: State, t: Tid, v: Via)
    requires WeakMoves(s, d, t, v) && News(s) && s.fromNew
    requires forall w :: w in d.nones ==> w in s.nones || (w == s.c.nextH && v.Wk? && v.h in s.nones)
    ensures forall w :: w in d.nones && w in d.c.weaks ==> !d.c.phase.Counted?
  {
    forall w | w in d.nones && w in d.c.weaks ensures !d.c.phase.Counted? {
      if w in s.nones {
        assert w < s.c.nextH;
        assert w in s.c.weaks;
      } else {
        assert v.h in s.c.weaks;
      }
    }
  }

  /** Common to every step that moves the weak count. */
  lemma WeakStep(s: State, d: State, t: Tid, v: Via)
    requires Inv(s) && t in s.pc && t in d.pc && d.pc == s.pc[t := d.pc[t]]
    requires MovedW(s.c, d.c, t) && WeakMoves(s, d, t, v) && d.fromNew == s.fromNew
    requires forall w :: w in d.nones ==> w in s.nones || (w == s.c.nextH < d.c.nextH && v.Wk? && v.h in s.nones)
    requires s.fromNew && d.c.phase.Released? ==> d.data.Gone?
    requires Sane(d) && NewestFacts(s.c) ==> PcOk(d, t) && Datas(d) && Intos(d) && Bounds(d) && Frees(d)
    ensures Inv(d)
  {
    hide CoreInv, Pcs, Frees, Datas, Bounds, News, Intos, NewestFacts, PcOk, MovedW, WeakMoves, Acted;
    Sides(s);
    MovedWSane(s, d, t);
    WeakActs(s, d, t, v);
    WeakNews(s, d, t, v);
    ActedLocal(s, d, t, v);
  }

  // ---- the cores ----

  lemma IncWCore(c: Core, t: Tid, via: Via, acquire: bool)
    requires CoreInv(c) && t in c.cur && MayUse(c, via, t) && c.lock == None && |c.weak| > 0 && LastW(c).val < USIZE_MAX
    ensures t in c.acq && |c.weak| > 0 && MovedW(c, IncW(c, t, via, acquire), t) && c.nextH !in c.weaks
  {
    hide CoreInv, Good, NewestFacts;
    IncWKeeps(c, t, via, acquire);
    Newest(c);
    RmwWFacts(c, t, via, acquire, false, WrapInc(LastW(c).val), c.weaks.Keys + {c.nextH}, LastW(c).implicit, false);
    Newest(IncW(c, t, via, acquire));
    NextFreeW(c);
  }

  lemma NextFreeW(c: Core)
    requires NewestFacts(c)
    ensures c.nextH !in c.weaks && c.cur.Keys == c.acq.Keys && |c.strong| > 0
  {
  }

  lemma DecWCore(c: Core, t: Tid, w: Hid)
    requires CoreInv(c) && t in c.cur && w in c.weaks && c.weaks[w] == {t}
    ensures t in c.acq && |c.weak| > 0 && MovedW(c, DecW(c, t, w), t) && c.lock == None
    ensures Leq(LastW(DecW(c, t, w)).view, Join(DecW(c, t, w).cur[t], DecW(c, t, w).acq[t]))
  {
    hide CoreInv, Good, NewestFacts;
    DecWKeeps(c, t, w);
    Newest(c);
    RmwWFacts(c, t, Wk(w), false, true, WrapDec(LastW(c).val), c.weaks.Keys - {w}, LastW(c).implicit, false);
    Newest(DecW(c, t, w));
    NextFreeW(c);
    NoLockW(c, w);
  }

  lemma NoLockW(c: Core, w: Hid)
    requires NewestFacts(c) && w in c.weaks
    ensures c.lock == None
  {
  }

  lemma DropImplicitCore(c: Core, t: Tid, h: Hid)
    requires CoreInv(c) && t in c.cur && h in c.roots && c.roots[h] == {t}
    requires c.phase == Held(t, true) || c.phase.CyclicB?
    ensures t in c.acq && |c.weak| > 0 && MovedW(c, DropImplicit(c, t, h), t) && c.roots == map[h := {t}]
    ensures Leq(LastW(DropImplicit(c, t, h)).view, Join(DropImplicit(c, t, h).cur[t], DropImplicit(c, t, h).acq[t]))
    ensures c.lock == None
  {
    hide CoreInv, Good, NewestFacts;
    DropImplicitKeeps(c, t, h);
    Newest(c);
    RmwWFacts(c, t, Root(h), false, true, WrapDec(LastW(c).val), c.weaks.Keys, false, false);
    Newest(DropImplicit(c, t, h));
    NextFreeW(c);
    LoneRootCount(c);
    OneRoot(c, t, h);
    NoLock(c);
  }

  lemma LockCore(c: Core, t: Tid, h: Hid)
    requires CoreInv(c) && c.phase.Counted? && t in c.cur && MayUse(c, Root(h), t) && |c.weak| > 0 && LastW(c).val == 1
    ensures t in c.acq && |c.weak| > 0 && MovedW(c, LockW(c, t, h), t) && c.weaks == map[] && c.lock == None
  {
    hide CoreInv, Good, NewestFacts;
    LockWKeeps(c, t, h);
    Newest(c);
    RmwWFacts(c, t, Root(h), true, false, USIZE_MAX, {}, true, true);
    Newest(LockW(c, t, h));
    NextFreeW(c);
  }

  lemma UnlockCore(c: Core, t: Tid, h: Hid)
    requires CoreInv(c) && c.lock == Some(t) && t in c.cur && MayUse(c, Root(h), t)
    ensures MovedW(c, UnlockW(c, t, h), t) && c.weaks == map[] && c.phase.Counted?
  {
    hide CoreInv, Good, NewestFacts;
    UnlockWKeeps(c, t, h);
    Newest(c);
    Newest(UnlockW(c, t, h));
    NextFreeW(c);
    UnlockViews(c, t, h);
  }

  lemma UnlockViews(c: Core, t: Tid, h: Hid)
    requires NewestFacts(c) && c.lock == Some(t) && t in c.cur
    ensures Leq(c.cur[t], UnlockW(c, t, h).cur[t]) && c.weaks == map[] && c.phase.Counted? && |c.weak| > 0
  {
  }

  // ---- the steps ----

  lemma WeakBound(s: State)
    requires Inv(s)
    ensures |s.c.weak| > 0 && (!LastW(s.c).locked ==> LastW(s.c).val < USIZE_MAX) && (LastW(s.c).locked <==> s.c.lock.Some?)
    ensures s.c.lock.Some? ==> LastW(s.c).val == USIZE_MAX && s.c.phase.Counted? && s.c.weaks == map[]
  {
    hide CoreInv, Frees, Datas, News, Intos, PcOk;
    Newest(s.c);
    CardMono(s.overW, s.pc.Keys);
  }

  lemma Counted(s: State)
    requires Inv(s)
    ensures s.fromNew && s.c.phase.Released? ==> s.data.Gone?
  {
    hide CoreInv, Frees, Datas, Intos, PcOk, Bounds;
  }

  lemma HandleCount(s: State, v: Via, t: Tid)
    requires Inv(s) && MayUse(s.c, v, t)
    ensures |s.c.weak| > 0 && LastW(s.c).val > 0
  {
    hide CoreInv, Local, NewestFacts;
    Newest(s.c);
    HandleCounts(s.c, v, t);
  }

  ghost predicate Others(s: State)
    requires Sane(s)
  {
    Frees(s) && Datas(s) && Bounds(s) && Intos(s)
  }

  lemma OthersHold(s: State)
    requires Inv(s)
    ensures Sane(s) && Others(s)
  {
    hide CoreInv, Pcs, Frees, Datas, Bounds, News, Intos;
  }

  lemma SamePhase(s: State, d: State, t: Tid)
    requires Sane(s) && Sane(d) && t in s.pc && t in d.pc && d.pc == s.pc[t := d.pc[t]]
    requires !s.pc[t].CycReady? && d.c.phase == s.c.phase && (s.c.phase.Held? ==> s.c.phase.t != t)
    requires d.c.strong == s.c.strong
    requires d == s.(c := d.c, pc := d.pc, overW := d.overW, nones := d.nones) && Datas(s) && Intos(s)
    ensures Datas(d) && Intos(d)
  {
    hide Frees, Bounds;
    if u :| u in s.pc && s.pc[u].CycReady? { assert d.pc[u].CycReady?; }
  }

  lemma MoreWeakBound(s: State, d: State, t: Tid)
    requires Sane(s) && Sane(d) && t in s.pc && t in d.pc && d.pc == s.pc[t := d.pc[t]] && PcOk(s, t) && Bounds(s)
    requires !s.pc[t].Aborting? && d.c.strong == s.c.strong && d.overS == s.overS
    requires LastW(d.c).val == LastW(s.c).val + 1 && !LastW(s.c).locked
    requires if LastW(s.c).val > MAX_REFCOUNT then d.overW == s.overW + {t} else d.overW == s.overW
    ensures Bounds(d)
  {
    assert d.pc.Keys == s.pc.Keys;
    assert t !in s.overW;
  }

  lemma LessWeakBound(s: State, d: State, t: Tid)
    requires Sane(s) && Sane(d) && t in s.pc && t in d.pc && d.pc == s.pc[t := d.pc[t]] && Bounds(s)
    requires d.c.strong == s.c.strong && d.overS == s.overS && d.overW == s.overW
    requires LastW(d.c).locked || LastW(d.c).val <= 1 || (LastW(d.c).val <= LastW(s.c).val && !LastW(s.c).locked)
    ensures Bounds(d)
  {
    assert d.pc.Keys == s.pc.Keys;
  }

  lemma NoFrees(s: State, d: State, t: Tid)
    requires Sane(s) && Sane(d) && t in s.pc && t in d.pc && d.pc == s.pc[t := d.pc[t]] && Frees(s)
    requires !FreePc(d.pc[t]) && d.freed == s.freed && LastW(s.c).val > 0 && LastW(d.c).val > 0
    ensures Frees(d)
  {
  }

  lemma DropFrees(s: State, d: State, t: Tid)
    requires Sane(s) && Sane(d) && t in s.pc && t in d.pc && d.pc == s.pc[t := d.pc[t]] && Frees(s)
    requires d.freed == s.freed && LastW(s.c).val > 0 && LastW(d.c).val == LastW(s.c).val - 1
    requires d.pc[t] == AfterWeakDrop(LastW(s.c).val)
    requires forall u :: u in s.pc && FreePc(s.pc[u]) ==> LastW(s.c).val == 0
    ensures Frees(d)
  {
    if LastW(d.c).val == 0 { assert FreePc(d.pc[t]); }
  }

  lemma ReleaseDatas(s: State, d: State, t: Tid)
    requires Sane(s) && Sane(d) && t in s.pc && t in d.pc && Datas(s) && Intos(s)
    requires d == s.(c := d.c, pc := d.pc, returned := d.returned) && d.c.phase.Released? && !s.c.phase.Released?
    requires if s.pc[t].Releasing? && s.pc[t].kind == KInto then d.returned == s.returned + 1 else d.returned == s.returned
    requires !s.data.Whole? && (s.data.Gone? ==> s.pc[t].Releasing? && s.c.phase.Held? && s.c.phase.t == t)
    requires d.c.strong == s.c.strong && (Written(s.c) ==> s.c.phase.Held? && s.c.phase.t == t && s.pc[t].Releasing? && s.data.Gone?)
    requires s.pc[t].Releasing? ==> s.c.phase.Held? && s.c.phase.t == t
    ensures Datas(d) && Intos(d)
  {
  }

  /** Side conditions of a step that adds a `Weak` handle. */
  lemma WeakIncRest(s: State, d: State, t: Tid)
    requires Sane(s) && Sane(d) && t in s.pc && t in d.pc && d.pc == s.pc[t := d.pc[t]] && PcOk(s, t)
    requires (s.pc[t].Idle? || s.pc[t].Down?) && (d.pc[t].Idle? || d.pc[t].Aborting?)
    requires d == s.(c := d.c, pc := d.pc, overW := d.overW, nones := d.nones)
    requires d.c.strong == s.c.strong && d.c.phase == s.c.phase
    requires LastW(d.c).val == LastW(s.c).val + 1 && LastW(s.c).val > 0 && !LastW(s.c).locked
    requires if LastW(s.c).val > MAX_REFCOUNT then d.overW == s.overW + {t} else d.overW == s.overW
    requires Others(s)
    ensures Others(d)
  {
    hide Frees, Datas, Bounds, Intos;
    SamePhase(s, d, t);
    MoreWeakBound(s, d, t);
    NoFrees(s, d, t);
  }

  lemma DownOkKeeps(s: State, t: Tid)
    requires Inv(s) && Enabled(s, DownOk(t))
    ensures Inv(Next(s, DownOk(t)))
  {
    hide CoreInv, Pcs, Frees, Datas, Bounds, News, Intos, NewestFacts, MovedW, WeakMoves, Others;
    AtPc(s, t);
    WeakBound(s);
    var h := s.pc[t].h;
    HandleCount(s, Root(h), t);
    IncWCore(s.c, t, Root(h), true);
    var d := Next(s, DownOk(t));
    IncWMoves(s, d, t, Root(h), true);
    Counted(s);
    if Sane(d) { OthersHold(s); WeakIncRest(s, d, t); OthersAre(d); }
    WeakStep(s, d, t, Root(h));
  }

  lemma OthersAre(s: State)
    requires Sane(s) && Others(s)
    ensures Frees(s) && Datas(s) && Bounds(s) && Intos(s)
  {
    hide Frees, Datas, Bounds, Intos;
  }

  lemma IncWMoves(s: State, d: State, t: Tid, via: Via, acquire: bool)
    requires Sane(s) && t in s.pc && MayUse(s.c, via, t) && s.c.nextH !in s.c.weaks
    requires d.c == IncW(s.c, t, via, acquire) && d == s.(c := d.c, pc := d.pc, overW := d.overW, nones := d.nones)
    requires d.overW <= s.overW + {t}
    ensures WeakMoves(s, d, t, via)
  {
  }

  lemma CloneWeakKeeps(s: State, t: Tid, v: Via)
    requires Inv(s) && Enabled(s, CloneWeak(t, v))
    ensures Inv(Next(s, CloneWeak(t, v)))
  {
    hide CoreInv, Pcs, Frees, Datas, Bounds, News, Intos, NewestFacts, MovedW, WeakMoves, Others, PcOk;
    AtPc(s, t);
    WeakBound(s);
    HandleCount(s, v, t);
    IncWCore(s.c, t, v, false);
    var d := Next(s, CloneWeak(t, v));
    CloneWeakPc(s, d, t, v);
    IncWMoves(s, d, t, v, false);
    Counted(s);
    if Sane(d) { OthersHold(s); WeakIncRest(s, d, t); OthersAre(d); }
    WeakStep(s, d, t, v);
  }

  lemma CloneWeakPc(s: State, d: State, t: Tid, v: Via)
    requires Sane(s) && Enabled(s, CloneWeak(t, v)) && d == Next(s, CloneWeak(t, v)) && PcOk(s, t)
    ensures Sane(d) ==> PcOk(d, t)
  {
    hide IncW, PcFacts;
    IncWFrame(s.c, t, v, false);
    assert d.c == IncW(s.c, t, v, false) && (d.pc[t].Idle? || d.pc[t].Aborting?);
    if Sane(d) { RestingFacts(d, t); }
  }

  lemma IncWFrame(c: Core, t: Tid, via: Via, acquire: bool)
    requires |c.weak| > 0 && t in c.cur && t in c.acq
    ensures IncW(c, t, via, acquire).lock == c.lock && IncW(c, t, via, acquire).phase == c.phase
  {
  }

  lemma RestingFacts(s: State, t: Tid)
    requires Sane(s) && t in s.pc && (s.pc[t].Idle? || s.pc[t].Aborting?)
    ensures PcFacts(s, t, s.pc[t])
  {
  }

  /** Side conditions of a step that takes a weak count away. */
  lemma WeakDecRest(s: State, d: State, t: Tid)
    requires Sane(s) && Sane(d) && t in s.pc && t in d.pc && d.pc == s.pc[t := d.pc[t]]
    requires d.pc[t] == AfterWeakDrop(LastW(s.c).val) && !s.pc[t].CycReady? && !HeldPc(s.pc[t])
    requires d == s.(c := d.c, pc := d.pc) && d.c.strong == s.c.strong && d.c.phase == s.c.phase
    requires LastW(d.c).val == LastW(s.c).val - 1 && LastW(s.c).val > 0 && !LastW(s.c).locked
    requires forall u :: u in s.pc && FreePc(s.pc[u]) ==> LastW(s.c).val == 0
    requires s.c.phase.Held? ==> s.c.phase.t != t
    requires Others(s)
    ensures Others(d)
  {
    hide Frees, Datas, Bounds, Intos;
    SamePhase(s, d, t);
    LessWeakBound(s, d, t);
    DropFrees(s, d, t);
  }

  lemma FreersSeeZero(s: State)
    requires Inv(s)
    ensures Sane(s) && forall u :: u in s.pc && FreePc(s.pc[u]) ==> LastW(s.c).val == 0
  {
    hide CoreInv, Frees, Datas, Bounds, News, Intos;
    forall u | u in s.pc && FreePc(s.pc[u]) ensures LastW(s.c).val == 0 { assert PcOk(s, u); }
  }

  lemma DropWeakKeeps(s: State, t: Tid, w: Hid)
    requires Inv(s) && Enabled(s, DropWeak(t, w))
    ensures Inv(Next(s, DropWeak(t, w)))
  {
    hide CoreInv, Pcs, Frees, Datas, Bounds, News, Intos, NewestFacts, MovedW, WeakMoves, Others, Enabled, Next;
    LateNext(s, DropWeak(t, w));
    AtPc(s, t);
    WeakBound(s);
    HandleCount(s, Wk(w), t);
    DecWCore(s.c, t, w);
    FreersSeeZero(s);
    var d := Next(s, DropWeak(t, w));
    DecWMoves(s, d, t, w);
    Counted(s);
    OthersHold(s);
    OnceFreed(s);
    if Sane(d) { WeakDecRest(s, d, t); OthersAre(d); }
    WeakStep(s, d, t, Wk(w));
  }

  lemma OnceFreed(s: State)
    requires Sane(s) && Others(s)
    ensures LastW(s.c).val > 0 ==> s.freed == 0
  {
  }

  lemma DecWMoves(s: State, d: State, t: Tid, w: Hid)
    requires Sane(s) && t in s.pc && w in s.c.weaks && s.c.weaks[w] == {t}
    requires d.c == DecW(s.c, t, w) && d == s.(c := d.c, pc := d.pc)
    ensures WeakMoves(s, d, t, Wk(w))
  {
  }

  // ---- the implicit weak reference ----

  lemma DropImplicitMoves(s: State, d: State, t: Tid, h: Hid)
    requires Sane(s) && t in s.pc && s.c.roots == map[h := {t}] && (s.c.phase == Held(t, true) || s.c.phase.CyclicB?)
    requires d.c == DropImplicit(s.c, t, h) && d == s.(c := d.c, pc := d.pc, returned := d.returned)
    ensures WeakMoves(s, d, t, Root(h))
  {
  }

  lemma DropImplicitRest(s: State, d: State, t: Tid)
    requires Sane(s) && Sane(d) && t in s.pc && t in d.pc && d.pc == s.pc[t := d.pc[t]]
    requires d.pc[t] == AfterWeakDrop(LastW(s.c).val)
    requires d.c.strong == s.c.strong && d.c.phase.Released? && !s.c.phase.Released?
    requires d == s.(c := d.c, pc := d.pc, returned := d.returned)
    requires LastW(d.c).val == LastW(s.c).val - 1 && LastW(s.c).val > 0 && !LastW(s.c).locked
    requires forall u :: u in s.pc && FreePc(s.pc[u]) ==> LastW(s.c).val == 0
    requires if s.pc[t].Releasing? && s.pc[t].kind == KInto then d.returned == s.returned + 1 else d.returned == s.returned
    requires !s.data.Whole? && (s.data.Gone? ==> s.pc[t].Releasing? && s.c.phase.Held? && s.c.phase.t == t)
    requires Written(s.c) ==> s.c.phase.Held? && s.c.phase.t == t && s.pc[t].Releasing? && s.data.Gone?
    requires s.pc[t].Releasing? ==> s.c.phase.Held? && s.c.phase.t == t
    requires Others(s)
    ensures Others(d)
  {
    hide Frees, Datas, Bounds, Intos;
    ReleaseDatas(s, d, t);
    LessWeakBound(s, d, t);
    DropFrees(s, d, t);
  }

  lemma DropImplicitWeakKeeps(s: State, t: Tid)
    requires Inv(s) && Enabled(s, DropImplicitWeak(t))
    ensures Inv(Next(s, DropImplicitWeak(t)))
  {
    hide CoreInv, Pcs, Frees, Datas, Bounds, News, Intos, NewestFacts, MovedW, WeakMoves, Others, Enabled, Next;
    LateNext(s, DropImplicitWeak(t));
    AtPc(s, t);
    WeakBound(s);
    var h := s.pc[t].h;
    HandleCount(s, Root(h), t);
    DropImplicitCore(s.c, t, h);
    FreersSeeZero(s);
    var d := Next(s, DropImplicitWeak(t));
    DropImplicitMoves(s, d, t, h);
    OthersHold(s);
    OnceFreed(s);
    if Sane(d) { DropImplicitRest(s, d, t); OthersAre(d); }
    WeakStep(s, d, t, Root(h));
  }

  lemma CycUnwindsKeeps(s: State, t: Tid, b: Hid)
    requires Inv(s) && Enabled(s, CycUnwinds(t, b))
    ensures Inv(Next(s, CycUnwinds(t, b)))
  {
    hide CoreInv, Pcs, Frees, Datas, Bounds, News, Intos, NewestFacts, MovedW, WeakMoves, Others, Enabled, Next;
    LateNext(s, CycUnwinds(t, b));
    AtPc(s, t);
    WeakBound(s);
    HandleCount(s, Root(b), t);
    DropImplicitCore(s.c, t, b);
    FreersSeeZero(s);
    NotNew(s);
    Data.NotYetInit(s, t, b);
    var d := Next(s, CycUnwinds(t, b));
    DropImplicitMoves(s, d, t, b);
    OthersHold(s);
    OnceFreed(s);
    if Sane(d) { DropImplicitRest(s, d, t); OthersAre(d); }
    WeakStep(s, d, t, Root(b));
  }

  import Data = ArcDataSteps

  // ---- the weak lock ----

  lemma LockRest(s: State, d: State, t: Tid)
    requires Sane(s) && Sane(d) && t in s.pc && t in d.pc && d.pc == s.pc[t := d.pc[t]]
    requires d == s.(c := d.c, pc := d.pc) && d.c.strong == s.c.strong && d.c.phase == s.c.phase && s.c.phase.Counted?
    requires !s.pc[t].CycReady? && !FreePc(d.pc[t]) && LastW(s.c).val > 0 && LastW(d.c).val > 0
    requires LastW(d.c).locked || LastW(d.c).val == 1
    requires Others(s)
    ensures Others(d)
  {
    hide Frees, Datas, Bounds, Intos;
    SamePhase(s, d, t);
    LessWeakBound(s, d, t);
    NoFrees(s, d, t);
  }

  lemma UqLockKeeps(s: State, t: Tid, h: Hid, excl: bool)
    requires Inv(s) && Enabled(s, UqLock(t, h, excl))
    ensures Inv(Next(s, UqLock(t, h, excl)))
  {
    hide CoreInv, Pcs, Frees, Datas, Bounds, News, Intos, NewestFacts, MovedW, WeakMoves, Others;
    AtPc(s, t);
    LockCore(s.c, t, h);
    var d := Next(s, UqLock(t, h, excl));
    LockMoves(s, d, t, h);
    OthersHold(s);
    if Sane(d) { LockRest(s, d, t); OthersAre(d); }
    WeakStep(s, d, t, Root(h));
  }

  lemma LockMoves(s: State, d: State, t: Tid, h: Hid)
    requires Sane(s) && t in s.pc && MayUse(s.c, Root(h), t)
    requires s.c.lock in {None, Some(t)} && d == s.(c := d.c, pc := d.pc)
    requires d.c == LockW(s.c, t, h) || d.c == UnlockW(s.c, t, h)
    ensures WeakMoves(s, d, t, Root(h))
  {
  }

  lemma UqUnlockKeeps(s: State, t: Tid)
    requires Inv(s) && Enabled(s, UqUnlock(t))
    ensures Inv(Next(s, UqUnlock(t)))
  {
    hide CoreInv, Pcs, Frees, Datas, Bounds, News, Intos, NewestFacts, MovedW, WeakMoves, Others;
    AtPc(s, t);
    WeakBound(s);
    var h := s.pc[t].h;
    UnlockCore(s.c, t, h);
    var d := Next(s, UqUnlock(t));
    LockMoves(s, d, t, h);
    OthersHold(s);
    UsesAreEvents(s.c);
    if Sane(d) { LockRest(s, d, t); OthersAre(d); }
    WeakStep(s, d, t, Root(h));
  }

  lemma UsesAreEvents(c: Core)
    requires CoreInv(c)
    ensures forall e :: e in c.uses ==> e < |c.src|
  {
    hide Views, StrongOk, WeakOk, Seen, Cov, Holder, Visible;
  }

  // ---- handles lent and given back ----

  lemma LendKeeps(s: State, t: Tid, u: Tid, v: Via)
    requires Inv(s) && Enabled(s, Lend(t, u, v))
    ensures Inv(Next(s, Lend(t, u, v)))
  {
    hide CoreInv, Pcs, Frees, Datas, Bounds, News, Intos, NewestFacts, Lent, PcOk;
    AtPc(s, t);
    var d := Next(s, Lend(t, u, v));
    IdleNotHeld(s, t, v);
    Keeps.ShareKeeps(s.c, v, t, u);
    Newest(d.c);
    InOrder(d.c, {});
    LendLent(s, d, t, u, v);
    LentKeeps(s, d, t, v);
    LentRest(s, d, t, v);
  }

  lemma IdleNotHeld(s: State, t: Tid, v: Via)
    requires Sane(s) && t in s.pc && s.pc[t].Idle? && PcOk(s, t) && NewestFacts(s.c) && MayUse(s.c, v, t)
    ensures v.Wk? || !s.c.phase.Held?
  {
  }

  lemma LendLent(s: State, d: State, t: Tid, u: Tid, v: Via)
    requires Enabled(s, Lend(t, u, v)) && d == Next(s, Lend(t, u, v))
    requires forall x :: x in d.c.cur ==> d.c.cur[x].s < |d.c.strong|
    ensures Sane(d) && Lent(s, d, t, v) && forall x, y :: MayUse(d.c, x, y) ==> MayUse(s.c, x, y) || (x == v && y == u)
    ensures u in d.c.cur && s.c.cur[t].s <= d.c.cur[u].s
  {
  }

  lemma LentRest(s: State, d: State, t: Tid, v: Via)
    requires Sane(s) && Sane(d) && Lent(s, d, t, v) && t in s.pc
    requires forall x, y :: MayUse(d.c, x, y) ==> MayUse(s.c, x, y) || (x == v && y in d.c.cur && s.c.cur[t].s <= d.c.cur[y].s)
    requires Frees(s) && Datas(s) && Bounds(s) && News(s) && Intos(s)
    ensures Frees(d) && Datas(d) && Bounds(d) && News(d) && Intos(d)
  {
    hide Leq;
    if s.fromNew { LentRevived(s, d, t, v); }
  }

  lemma LentRevived(s: State, d: State, t: Tid, v: Via)
    requires Sane(s) && Sane(d) && Lent(s, d, t, v) && t in s.pc && Revived(s.c)
    requires forall x, y :: MayUse(d.c, x, y) ==> MayUse(s.c, x, y) || (x == v && y in d.c.cur && s.c.cur[t].s <= d.c.cur[y].s)
    ensures Revived(d.c)
  {
    forall m, x, y | 0 <= m < |d.c.strong| - 1 && d.c.strong[m].live == {} && MayUse(d.c, x, y) && y in d.c.cur
      ensures m < d.c.cur[y].s
    {
      if MayUse(s.c, x, y) {
        assert m < s.c.cur[y].s;
      } else {
        assert MayUse(s.c, v, t);
      }
    }
  }

  lemma GiveBackToKeeps(s: State, t: Tid, u: Tid, v: Via)
    requires Inv(s) && Enabled(s, GiveBackTo(t, u, v))
    ensures Inv(Next(s, GiveBackTo(t, u, v)))
  {
    hide CoreInv, Pcs, Frees, Datas, Bounds, News, Intos, NewestFacts, Lent, PcOk;
    AtPc(s, t);
    var d := Next(s, GiveBackTo(t, u, v));
    Keeps.GiveBackKeeps(s.c, v, t, u);
    Newest(d.c);
    InOrder(d.c, {});
    GiveBackLent(s, d, t, u, v);
    LentKeeps(s, d, t, v);
    LentRest(s, d, t, v);
  }

  lemma GiveBackLent(s: State, d: State, t: Tid, u: Tid, v: Via)
    requires Enabled(s, GiveBackTo(t, u, v)) && d == Next(s, GiveBackTo(t, u, v))
    requires forall x :: x in d.c.cur ==> d.c.cur[x].s < |d.c.strong|
    ensures Sane(d) && Lent(s, d, t, v) && forall x, y :: MayUse(d.c, x, y) ==> MayUse(s.c, x, y)
  {
  }
}
