/** The operations of `Arc` and `Weak` as the code performs them: one atomic step at a time, with any
    number of steps of other threads in between. Each is a run of the state machine. */
module ArcCode {
  import opened Common
  import opened ArcState
  import opened ArcCore
  import opened ArcSteps
  import opened ArcInvariant
  import opened ArcFrame
  import opened ArcTheorems
  import opened ArcGuarantees
  import opened ArcCalls
  import Strong = ArcStrongSteps

  // ---- what a thread can do where it is ----

  lemma HereOk(s: State, t: Tid)
    requires Inv(s) && t in s.pc
    ensures Sane(s) && At(s, t) && CanReadS(s, t, |s.c.strong| - 1) && CanReadW(s, t, |s.c.weak| - 1)
  {
    hide CoreInv, Pcs, Frees, Datas, Bounds, News, Intos;
    Newest(s.c);
  }

  /** Taking step `l` is possible, and brings its thread to `p`. */
  ghost predicate Goes(s: State, l: Label, p: Pc) {
    Enabled(s, l) && l.t in Next(s, l).pc && Next(s, l).pc[l.t] == p && !Next(s, l).aborted
  }

  lemma UqHere(s: State, t: Tid, h: Hid, k: nat)
    requires Sane(s) && !s.aborted && IdleAt(s, t) && IsArc(s, t, h) && CanReadW(s, t, k)
    ensures s.c.weak[k].val != 1 ==> Goes(s, UqMiss(t, h, k), Idle)
    ensures Owns(s, t, h) && LastW(s.c).val == 1 ==> Goes(s, UqLock(t, h, true), UqLocked(h, true))
  {
    hide LoadW, LockW;
  }

  lemma UqLoadHere(s: State, t: Tid, h: Hid, k: nat)
    requires Sane(s) && !s.aborted && At(s, t) && s.pc[t] == UqLocked(h, true) && CanReadS(s, t, k)
    ensures Goes(s, UqLoad(t, k), UqLoaded(h, true, s.c.strong[k].val == 1))
  {
    hide LoadS;
  }

  lemma UqUnlockHere(s: State, t: Tid)
    requires Sane(s) && !s.aborted && At(s, t) && s.pc[t].UqLoaded? && s.pc[t].excl
    ensures Goes(s, UqUnlock(t), if s.pc[t].uniq then Mut(s.pc[t].h) else Idle)
  {
    hide UnlockW;
  }

  lemma TakeHere(s: State, t: Tid, h: Hid, k: nat)
    requires Sane(s) && !s.aborted && IdleAt(s, t) && s.c.phase.Counted? && Owns(s, t, h) && CanReadS(s, t, k)
    ensures s.c.strong[k].val != 1 ==> Goes(s, MakeMutMiss(t, h, k), CloneOut(h))
    ensures LastS(s.c).val == 1 ==> Goes(s, MakeMutTake(t, h), Window(h))
  {
    hide LoadS, DecS;
  }

  lemma UnwrapHere(s: State, t: Tid, h: Hid, k: nat)
    requires Sane(s) && !s.aborted && IdleAt(s, t) && s.c.phase.Counted? && Owns(s, t, h)
    ensures CanReadS(s, t, k) && s.c.strong[k].val != 1 ==> Goes(s, UnwrapMiss(t, h, k), Idle)
    ensures LastS(s.c).val == 1 ==> Goes(s, UnwrapOk(t, h), Fencing(h, KUnwrap))
  {
    hide LoadS, DecS;
  }

  lemma CloneOutHere(s: State, t: Tid)
    requires Sane(s) && !s.aborted && At(s, t) && s.pc[t].CloneOut?
    ensures Goes(s, CloneData(t), DropOld(s.pc[t].h)) && Goes(s, CloneUnwinds(t), Idle)
  {
    hide Use;
  }

  lemma DropArcHere(s: State, t: Tid, h: Hid, into: bool)
    requires Sane(s) && !s.aborted && At(s, t) && s.c.phase.Counted? && Owns(s, t, h) && (s.pc[t].Idle? || (s.pc[t] == DropOld(h) && !into))
    ensures Goes(s, DropArc(t, h, into), if LastS(s.c).val == 1 then Fencing(h, if into then KInto else KDrop) else Idle)
  {
    hide DecS;
  }

  lemma WindowLoadHere(s: State, t: Tid, h: Hid, k: nat)
    requires Sane(s) && !s.aborted && At(s, t) && s.pc[t] == Window(h) && CanReadW(s, t, k)
    ensures Goes(s, WindowLoad(t, k), if s.c.weak[k].val != 1 then Consuming(h, KSteal) else Restore(h))
  {
    hide LoadW;
  }

  lemma RestoreHere(s: State, t: Tid, h: Hid)
    requires Sane(s) && !s.aborted && At(s, t) && s.pc[t] == Restore(h)
    ensures Goes(s, RestoreStrong(t), Mut(h))
  {
    hide StoreOne;
  }

  lemma TakingHere(s: State, t: Tid)
    requires Sane(s) && !s.aborted && At(s, t)
    ensures s.pc[t].Fencing? ==> Goes(s, FenceStrong(t), Consuming(s.pc[t].h, s.pc[t].kind))
    ensures s.pc[t].Consuming? ==> Goes(s, Consume(t), Releasing(s.pc[t].h, s.pc[t].kind))
    ensures s.pc[t].Releasing? ==> Goes(s, DropImplicitWeak(t), AfterWeakDrop(LastW(s.c).val))
  {
    hide Fence, Use, DropImplicit;
  }

  lemma FreeHere(s: State, t: Tid)
    requires Sane(s) && !s.aborted && At(s, t)
    ensures s.pc[t].FreeFencing? ==> Goes(s, FenceWeak(t), Freeing) && Grows(s, Next(s, FenceWeak(t)))
    ensures s.pc[t].Freeing? ==> Goes(s, Free(t), Idle) && Grows(s, Next(s, Free(t))) && Next(s, Free(t)).freed > 0
  {
    hide Fence;
  }

  lemma DropWeakHere(s: State, t: Tid, w: Hid)
    requires Sane(s) && !s.aborted && IdleAt(s, t) && w in s.c.weaks && s.c.weaks[w] == {t}
    ensures Goes(s, DropWeak(t, w), AfterWeakDrop(LastW(s.c).val))
  {
    hide DecW;
  }

  lemma UpStartHere(s: State, t: Tid, w: Hid, k: nat)
    requires Sane(s) && !s.aborted && IdleAt(s, t) && MayUse(s.c, Wk(w), t) && CanReadS(s, t, k)
    ensures Goes(s, UpStart(t, w, k), if s.c.strong[k].val == 0 then Idle else Up(w, s.c.strong[k].val))
  {
    hide LoadS;
  }

  lemma UpHere(s: State, t: Tid, k: nat)
    requires Sane(s) && !s.aborted && At(s, t) && s.pc[t].Up? && CanReadS(s, t, k)
    ensures var (w, n) := (s.pc[t].w, s.pc[t].n);
            if n > MAX_REFCOUNT then Goes(s, UpPanic(t), Idle)
            else Goes(s, UpRetry(t, k), if s.c.strong[k].val == 0 then Idle else Up(w, s.c.strong[k].val))
                 && (LastS(s.c).val == n ==> Goes(s, UpOk(t), Idle))
  {
    hide LoadS, IncS;
  }

  lemma DownStartHere(s: State, t: Tid, h: Hid, k: nat)
    requires Sane(s) && !s.aborted && IdleAt(s, t) && IsArc(s, t, h) && CanReadW(s, t, k)
    ensures Goes(s, DownStart(t, h, k), Down(h, s.c.weak[k].val))
  {
    hide LoadW;
  }

  lemma DownHere(s: State, t: Tid, k: nat)
    requires Sane(s) && !s.aborted && At(s, t) && s.pc[t].Down? && CanReadW(s, t, k)
    ensures var (h, n) := (s.pc[t].h, s.pc[t].n);
            if n == USIZE_MAX then Goes(s, DownSpin(t, k), Down(h, s.c.weak[k].val))
            else if n > MAX_REFCOUNT then Goes(s, DownPanic(t), Idle)
            else Goes(s, DownRetry(t, k), Down(h, s.c.weak[k].val)) && (LastW(s.c).val == n ==> Goes(s, DownOk(t), Idle))
  {
    hide LoadW, IncW;
  }

  lemma CountStartHere(s: State, t: Tid, w: Hid, k: nat)
    requires Sane(s) && !s.aborted && IdleAt(s, t) && MayUse(s.c, Wk(w), t) && CanReadW(s, t, k)
    ensures Goes(s, CountStart(t, w, k), Counting(w, s.c.weak[k].val, |s.c.weak[k].live|))
  {
    hide LoadW;
  }

  lemma CountEndHere(s: State, t: Tid, k: nat)
    requires Sane(s) && !s.aborted && At(s, t) && s.pc[t].Counting? && CanReadS(s, t, k)
    ensures Goes(s, CountEnd(t, k), Idle)
  {
    hide LoadS;
  }

  lemma DropOldHere(s: State, t: Tid, h: Hid)
    requires Inv(s) && t in s.pc && s.pc[t] == DropOld(h)
    ensures At(s, t) && s.c.phase.Counted? && Owns(s, t, h)
  {
    hide CoreInv, Frees, Datas, Bounds, News, Intos;
    Newest(s.c);
    assert PcOk(s, t);
  }

  lemma OnceEachInv(s: State)
    requires Inv(s)
    ensures s.consumed <= 1 && s.freed <= 1 && s.returned <= 1
  {
    hide CoreInv, Pcs, Bounds, News;
  }

  lemma ReleaseReturns(s: State, t: Tid)
    requires t in s.pc && s.pc[t].Releasing? && Inv(s) && Enabled(s, DropImplicitWeak(t))
    ensures var d := Next(s, DropImplicitWeak(t));
            d.consumed == 1 && (s.pc[t].kind == KInto ==> d.returned >= 1)
  {
    hide CoreInv, Frees, Bounds, News, DropImplicit;
    assert PcOk(s, t);
  }

  lemma UpRefused(s: State, l: Label)
    requires Enabled(s, l) && (l.UpStart? || l.UpRetry?)
    ensures Next(s, l).pc[l.t].Idle? ==> (if l.UpStart? then l.w else s.pc[l.t].w) in Next(s, l).nones
  {
    hide LoadS;
  }

  /** What a call began with refused is still refused. */
  lemma DidNones(c: Call, s: State, trace: seq<Label>)
    requires Did(c, s, trace)
    ensures c.s.nones <= s.nones && s.fromNew == c.s.fromNew
  {
    hide Inv, Runs, After, Kept;
    NonesGrow(c.s, trace[|c.trace|..]);
  }

  lemma UpOkFresh(s: State, t: Tid)
    requires t in s.pc && s.pc[t].Up? && Inv(s) && Enabled(s, UpOk(t))
    ensures s.fromNew ==> s.pc[t].w !in s.nones
    ensures Next(s, UpOk(t)).fromNew == s.fromNew
  {
    hide Inv, IncS;
    Strong.UpOkKeeps(s, t);
  }

  lemma CountExact(s: State, t: Tid, k: nat)
    requires Inv(s) && At(s, t) && s.pc[t].Counting? && CanReadS(s, t, k)
    ensures s.c.strong[k].val > 0 ==> s.pc[t].n == s.pc[t].truth + 1
  {
    hide Inv;
    CountingFacts(s, t);
  }

  /** `t` owns the `Arc` `h`. */
  predicate Has(s: State, t: Tid, h: Hid) { s.c.phase.Counted? && Owns(s, t, h) }

  /** `t` owns the `Weak` `w`. */
  predicate HasWeak(s: State, t: Tid, w: Hid) { w in s.c.weaks && s.c.weaks[w] == {t} }

  lemma MissKeepsArc(s: State, l: Label, h: Hid)
    requires Enabled(s, l) && (l.UqMiss? || l.UnwrapMiss?) && Has(s, l.t, h)
    ensures Has(Next(s, l), l.t, h)
  {
    hide Join;
  }

  lemma UqUnlockKeepsArc(s: State, t: Tid)
    requires Inv(s) && t in s.pc && s.pc[t].UqLoaded? && s.pc[t].excl && Enabled(s, UqUnlock(t))
    ensures Has(Next(s, UqUnlock(t)), t, s.pc[t].h)
  {
    hide CoreInv, Frees, Datas, Bounds, News, Intos, Join;
    assert PcOk(s, t);
  }

  lemma DropArcGone(s: State, t: Tid, h: Hid, into: bool)
    requires Enabled(s, ArcSteps.DropArc(t, h, into))
    ensures LastS(s.c).val != 1 ==> h !in Next(s, ArcSteps.DropArc(t, h, into)).c.roots
  {
    hide Join;
  }

  lemma DropWeakGone(s: State, t: Tid, w: Hid)
    requires Enabled(s, ArcSteps.DropWeak(t, w))
    ensures w !in Next(s, ArcSteps.DropWeak(t, w)).c.weaks
  {
    hide Join;
  }

  lemma CountEndGives(s: State, t: Tid, k: nat)
    requires Enabled(s, CountEnd(t, k))
    ensures Next(s, CountEnd(t, k)).counted.0 == if s.c.strong[k].val == 0 then 0 else s.pc[t].n as int - 1
  {
    hide LoadS;
  }

  lemma DownOkGives(s: State, t: Tid)
    requires Enabled(s, DownOk(t))
    ensures HasWeak(Next(s, DownOk(t)), t, s.c.nextH)
  {
    hide Join;
  }

  /** The `Arc` that `upgrade` gave: owned by `t`, to data in place, all writes to which are known. */
  predicate Got(s: State, t: Tid, h: Hid) {
    Has(s, t, h) && s.data.Whole? && t in s.c.cur && s.c.writes <= s.c.cur[t].ev
  }

  lemma UpOkGives(s: State, t: Tid)
    requires t in s.pc && s.pc[t].Up? && Inv(s) && Enabled(s, UpOk(t)) && Inv(Next(s, UpOk(t)))
    ensures Got(Next(s, UpOk(t)), t, s.c.nextH)
  {
    hide Inv, Enabled, Next;
    var d := Next(s, UpOk(t));
    UpOkResult(s, t);
    UpOkOwns(s, t);
    RootKnowsWrites(d, s.c.nextH, t);
    AccessIsLive(d, UpOk(t), s.c.nextH);
  }

  lemma UpOkOwns(s: State, t: Tid)
    requires Enabled(s, UpOk(t))
    ensures Owns(Next(s, UpOk(t)), t, s.c.nextH)
  {
    hide Join;
  }

  lemma CloneUnwindsKeepsArc(s: State, t: Tid)
    requires Inv(s) && t in s.pc && s.pc[t].CloneOut? && Enabled(s, CloneUnwinds(t))
    ensures Has(Next(s, CloneUnwinds(t)), t, s.pc[t].h)
  {
    hide CoreInv, Frees, Datas, Bounds, News, Intos;
    assert PcOk(s, t);
  }

  lemma FewEnough(s: State)
    requires Inv(s)
    ensures FewThreads(s.pc.Keys)
  {
    hide CoreInv, Pcs, Frees, Datas, News, Intos;
    Newest(s.c);
  }

  lemma NewIsSole(threads: set<Tid>, t: Tid)
    requires t in threads
    ensures Sole(ArcNew(threads, t).c, t, 0) && IdleAt(ArcNew(threads, t), t)
  {
  }

  lemma MutExclusive(s: State, t: Tid)
    requires Inv(s) && t in s.pc && s.pc[t].Mut?
    ensures Exclusive(s, s, t)
  {
    hide CoreInv, Frees, Datas, Bounds, News, Intos;
    Newest(s.c);
    assert PcOk(s, t);
  }

  // ---- what a call has read ----

  /** A write that `t` may read in the course of a call is still the same later on. */
  lemma ReadAt(c: Call, m: State, tm: seq<Label>, b: Core, k: nat)
    requires Did(c, m, tm) && Kept(m.c, b) && At(m, c.t) && CanReadS(m, c.t, k)
    ensures MayReadS(c.s.c, b, c.t, k) && b.strong[k] == m.c.strong[k]
  {
    hide Inv, RunsTo;
    HereOk(c.s, c.t);
    ReadOn(c.s.c, m.c, b, c.t, k);
  }

  lemma WeakReadAt(c: Call, m: State, tm: seq<Label>, b: Core, k: nat)
    requires Did(c, m, tm) && Kept(m.c, b) && At(m, c.t) && CanReadW(m, c.t, k)
    ensures MayReadW(c.s.c, b, c.t, k) && b.weak[k] == m.c.weak[k]
  {
    hide Inv, RunsTo;
    HereOk(c.s, c.t);
    WeakReadOn(c.s.c, m.c, b, c.t, k);
  }

  lemma ReadLater(c: Call, m: State, tm: seq<Label>, n: Core, e: Core, b: Core, k: nat)
    requires Did(c, m, tm) && Kept(m.c, n) && Kept(n, e) && Kept(e, b)
    requires At(m, c.t) && CanReadS(m, c.t, k)
    ensures MayReadS(c.s.c, b, c.t, k) && b.strong[k] == m.c.strong[k]
  {
    hide Inv, Kept, Did;
    KeptTrans(m.c, n, e);
    KeptTrans(m.c, e, b);
    ReadAt(c, m, tm, b, k);
  }

  lemma WeakReadLater(c: Call, m: State, tm: seq<Label>, n: Core, e: Core, b: Core, k: nat)
    requires Did(c, m, tm) && Kept(m.c, n) && Kept(n, e) && Kept(e, b)
    requires At(m, c.t) && CanReadW(m, c.t, k)
    ensures MayReadW(c.s.c, b, c.t, k) && b.weak[k] == m.c.weak[k]
  {
    hide Inv, Kept, Did;
    KeptTrans(m.c, n, e);
    KeptTrans(m.c, e, b);
    WeakReadAt(c, m, tm, b, k);
  }

  /** In the loop of `upgrade`, having read write `k`; or refused, that write being 0. */
  predicate InLoop(s: State, t: Tid, w: Hid, k: nat) {
    && t in s.pc && k < |s.c.strong|
    && ((s.pc[t].Idle? && w in s.nones && s.c.strong[k].val == 0)
        || (s.pc[t].Up? && s.pc[t].w == w && s.c.strong[k].val == s.pc[t].n))
  }

  predicate InDownLoop(s: State, t: Tid, k: nat) {
    t in s.pc && s.pc[t].Down? && k < |s.c.weak| && s.c.weak[k].val == s.pc[t].n
  }

  /** Where the answer of `make_mut` is settled, one that cannot fail is on its way to success. */
  lemma MissStands(c: Call, s: State, trace: seq<Label>, h: Hid, k: nat)
    requires Did(c, s, trace) && OwnSince(c, trace) == [MakeMutMiss(c.t, h, k)] && IsAt(s, c.t, CloneOut(h))
    ensures !MakeMutAlways(c.s, c.t, h)
  {
    hide Did, OwnSince, MakeMutAlways;
    if MakeMutAlways(c.s, c.t, h) { MakeMutDid(c, h, s, trace); }
  }

  lemma WindowStands(c: Call, s: State, trace: seq<Label>, h: Hid, k: nat)
    requires Did(c, s, trace) && OwnSince(c, trace) == [MakeMutTake(c.t, h), WindowLoad(c.t, k)]
    ensures MakeMutAlways(c.s, c.t, h) ==> IsAt(s, c.t, Restore(h))
  {
    hide Did, OwnSince, MakeMutAlways;
    if MakeMutAlways(c.s, c.t, h) { MakeMutDid(c, h, s, trace); }
  }

  class Shared {
    var s: State
    /** The steps taken so far, by any thread. */
    ghost var trace: seq<Label>

    constructor (threads: set<Tid>, t: Tid)
      requires t in threads && FewThreads(threads)
      ensures Inv(s) && s == ArcNew(threads, t)
    {
      s, trace := ArcNew(threads, t), [];
      StartInv(threads, t, 1, Counted, Whole, true);
    }

    /** One atomic step in the course of the call `c`. */
    method Step(l: Label, ghost c: Call)
      requires Inv(s) && Enabled(s, l) && Did(c, s, trace)
      modifies this
      ensures Inv(s) && s == Next(old(s), l) && trace == old(trace) + [l]
      ensures Did(c, s, trace) && OwnSince(c, trace) == OwnSince(c, old(trace)) + if l.t == c.t then [l] else []
      ensures Kept(old(s).c, s.c)
    {
      hide Inv, Next, Enabled, Did, OwnSince, Kept;
      StepKeeps(s, l);
      KeptStep(s, l);
      Proceeds(c, s, trace, l);
      s, trace := Next(s, l), trace + [l];
    }

    /** Whatever other threads do meanwhile. */
    method Others(t: Tid, ghost c: Call)
      requires Inv(s) && t in s.pc && c.t == t && Did(c, s, trace)
      modifies this
      ensures Inv(s) && c.t in s.pc && s.pc[c.t] == old(s).pc[c.t] && Grows(old(s), s)
      ensures Did(c, s, trace) && OwnSince(c, trace) == OwnSince(c, old(trace)) && Kept(old(s).c, s.c)
    {
      hide Inv, Next, Enabled, Did, OwnSince, Kept, Grown;
      var steps: int := *;
      if steps < 0 { steps := 0; }
      KeptSame(s.c);
      for i := 0 to steps
        invariant Inv(s) && c.t in s.pc && s.pc[c.t] == old(s).pc[c.t] && Grows(old(s), s)
        invariant Did(c, s, trace) && OwnSince(c, trace) == OwnSince(c, old(trace)) && Kept(old(s).c, s.c)
      {
        var l: Label := *;
        if Enabled(s, l) && l.t != t {
          StepEffect(s, l);
          ghost var was := s.c;
          Step(l, c);
          KeptTrans(old(s).c, was, s.c);
        }
      }
    }

    /** A write of `strong` that a plain load of `t` may return. */
    method AnyS(t: Tid) returns (k: nat)
      requires Inv(s) && t in s.pc
      ensures At(s, t) && CanReadS(s, t, k)
    {
      hide Inv;
      HereOk(s, t);
      k := *;
      if !CanReadS(s, t, k) { k := |s.c.strong| - 1; }
    }

    method AnyW(t: Tid) returns (k: nat)
      requires Inv(s) && t in s.pc
      ensures At(s, t) && CanReadW(s, t, k)
    {
      hide Inv;
      HereOk(s, t);
      k := *;
      if !CanReadW(s, t, k) { k := |s.c.weak| - 1; }
    }

    // ---- is_unique, get_mut ----

    /** `Arc::get_mut`. On success this is the only handle of any kind, every use of the data
        happened before, and other threads can do nothing to the allocation. It fails only on having
        read something else than 1, and never where no path fails. */
    method GetMut(t: Tid, h: Hid) returns (ok: bool)
      requires Inv(s) && !s.aborted && IdleAt(s, t) && IsArc(s, t, h) && Owns(s, t, h)
      modifies this
      ensures Inv(s) && t in s.pc
      ensures ok ==> s.pc[t] == Mut(h) && Exclusive(s, s, t)
      ensures !ok ==> s.aborted || (s.pc[t].Idle? && Has(s, t, h))
      ensures var c := Call(t, old(s), old(trace)); Did(c, s, trace) && (!s.aborted ==> GetMutCall(OwnSince(c, trace), t, h))
      ensures !ok && !s.aborted ==>
                ReadsOtherW(old(s).c, old(s).c, t) || ReadsOther(old(s).c, s.c, t)
      ensures GetMutAlways(old(s), t, h) && !s.aborted ==> ok
    {
      hide Inv, Enabled, Next, Did, OwnSince, Kept, GetMutAlways;
      ghost var c := Call(t, s, trace);
      Begins(t, s, trace);
      HereOk(s, t);
      var k := AnyW(t);
      if s.c.weak[k].val == 1 && LastW(s.c).val != 1 { k := |s.c.weak| - 1; }
      UqHere(s, t, h, k);
      if s.c.weak[k].val != 1 {
        MissKeepsArc(s, UqMiss(t, h, k), h);
        Step(UqMiss(t, h, k), c);
        ok := false;
      } else {
        Step(UqLock(t, h, true), c);
        ok := LoadAndUnlock(t, h, c);
        if s.aborted { return; }
      }
      if GetMutAlways(c.s, t, h) { GetMutDid(c, h, s, trace); }
    }

    /** `is_unique` with `weak` locked: look at `strong`, and unlock. */
    method LoadAndUnlock(t: Tid, h: Hid, ghost c: Call) returns (ok: bool)
      requires Inv(s) && !s.aborted && IsAt(s, t, UqLocked(h, true)) && Did(c, s, trace) && c.t == t
      modifies this
      ensures Inv(s) && t in s.pc && Did(c, s, trace)
      ensures !s.aborted ==> exists k :: OwnSince(c, trace) == OwnSince(c, old(trace)) + [UqLoad(t, k), UqUnlock(t)]
      ensures ok ==> s.pc[t] == Mut(h) && Exclusive(s, s, t)
      ensures !ok ==> s.aborted || (s.pc[t].Idle? && Has(s, t, h))
      ensures !ok && !s.aborted ==> ReadsOther(c.s.c, s.c, t)
    {
      hide Inv, Enabled, Next, Did, OwnSince, Kept;
      Others(t, c);
      if s.aborted { return false; }
      HereOk(s, t);
      var k := AnyS(t);
      UqLoadHere(s, t, h, k);
      ghost var m, tm := s, trace;
      Step(UqLoad(t, k), c);
      ghost var n := s;
      Others(t, c);
      if s.aborted { return false; }
      HereOk(s, t);
      UqUnlockHere(s, t);
      UqUnlockKeepsArc(s, t);
      ghost var e := s;
      Step(UqUnlock(t), c);
      assert OwnSince(c, trace) == OwnSince(c, tm) + [UqLoad(t, k), UqUnlock(t)];
      ok := s.pc[t].Mut?;
      if ok {
        MutExclusive(s, t);
      } else {
        ReadLater(c, m, tm, n.c, e.c, s.c, k);
      }
    }

    // ---- make_mut ----

    /** `Arc::make_mut`; `unwinds`: the clone of the data panics. In place, this is the only handle of
        any kind and every use of the data happened before. Otherwise the caller's `Arc` is now the
        only handle of the allocation `other`, and its handle here is given up; unless the clone
        panicked, and then it still has it. It is in place unless it read something else than 1,
        and wherever no path makes it so. */
    method MakeMut(t: Tid, h: Hid, unwinds: bool) returns (end: MakeMutEnd, other: Shared?)
      requires Inv(s) && !s.aborted && IdleAt(s, t) && s.c.phase.Counted? && Owns(s, t, h)
      modifies this
      ensures Inv(s) && t in s.pc && (end.Stopped? <==> s.aborted)
      ensures end.InPlace? ==> s.pc[t] == Mut(h) && Exclusive(s, s, t)
      ensures end.Moved? ==> s.pc[t].Idle? && s.consumed == 1
      ensures end.Cloned? ==> !unwinds && s.pc[t].Idle? && (h !in s.c.roots || s.consumed == 1)
      ensures end.Unwound? ==> unwinds && s.pc[t].Idle? && Has(s, t, h)
      ensures other != null <==> end.Moved? || end.Cloned?
      ensures other != null ==> fresh(other) && Inv(other.s) && IdleAt(other.s, t) && Sole(other.s.c, t, 0)
      ensures var c := Call(t, old(s), old(trace)); Did(c, s, trace) && (!end.Stopped? ==> MakeMutWhole(OwnSince(c, trace), t, h, end))
      ensures end.Cloned? || end.Unwound? ==> ReadsOther(old(s).c, old(s).c, t)
      ensures end.Moved? ==> ReadsOtherW(old(s).c, s.c, t)
      ensures MakeMutAlways(old(s), t, h) && !s.aborted ==> end.InPlace?
    {
      hide Inv, Enabled, Next, Sole, Did, OwnSince, Kept, MakeMutAlways, DropCall, TakeCall, MakeMutWhole;
      ghost var c := Call(t, s, trace);
      Begins(t, s, trace);
      HereOk(s, t);
      var k := AnyS(t);
      if s.c.strong[k].val == 1 && LastS(s.c).val != 1 { k := |s.c.strong| - 1; }
      TakeHere(s, t, h, k);
      if s.c.strong[k].val != 1 {
        Step(MakeMutMiss(t, h, k), c);
        MissStands(c, s, trace, h, k);
        end, other := CloneAway(t, unwinds, c);
        if !s.aborted { Miss(OwnSince(c, trace), t, h, k, OwnSince(c, trace)[1..]); }
        return;
      }
      Step(MakeMutTake(t, h), c);
      end, other := StealOrRestore(t, h, c);
    }

    /** `make_mut` once it has taken `strong` to 0: move the data out, or put the count back. */
    method StealOrRestore(t: Tid, h: Hid, ghost c: Call) returns (end: MakeMutEnd, other: Shared?)
      requires Inv(s) && !s.aborted && IsAt(s, t, Window(h))
      requires Did(c, s, trace) && c.t == t && OwnSince(c, trace) == [MakeMutTake(t, h)]
      modifies this
      ensures Inv(s) && t in s.pc && !end.Cloned? && !end.Unwound? && (end.Stopped? <==> s.aborted)
      ensures end.InPlace? ==> s.pc[t] == Mut(h) && Exclusive(s, s, t)
      ensures end.Moved? ==> s.pc[t].Idle? && s.consumed == 1
      ensures other != null <==> end.Moved?
      ensures other != null ==> fresh(other) && Inv(other.s) && IdleAt(other.s, t) && Sole(other.s.c, t, 0)
      ensures Did(c, s, trace) && (!end.Stopped? ==> MakeMutWhole(OwnSince(c, trace), t, h, end))
      ensures end.Moved? ==> ReadsOtherW(c.s.c, s.c, t)
      ensures MakeMutAlways(c.s, t, h) && !s.aborted ==> end.InPlace?
    {
      hide Inv, Enabled, Next, Sole, Did, OwnSince, Kept, MakeMutAlways, TakeCall, MakeMutWhole;
      end, other := Stopped, null;
      Others(t, c);
      if s.aborted { return; }
      HereOk(s, t);
      var k := AnyW(t);
      WindowLoadHere(s, t, h, k);
      ghost var m, tm := s, trace;
      Step(WindowLoad(t, k), c);
      ghost var n, look := s, OwnSince(c, trace);
      WindowStands(c, s, trace, h, k);
      Others(t, c);
      if s.aborted { return; }
      if s.pc[t].Consuming? {
        var made := Elsewhere(t);
        ghost var e := s;
        TakeData(t, c);
        if !s.aborted {
          end, other := Moved, made;
          ghost var own :| TakeCall(own, t) && OwnSince(c, trace) == look + own;
          Take(OwnSince(c, trace), t, h, k, own);
          WeakReadLater(c, m, tm, n.c, e.c, s.c, k);
        }
      } else {
        PutBack(t, h, c);
        Take(OwnSince(c, trace), t, h, k, [RestoreStrong(t)]);
        end := InPlace;
      }
    }

    /** No other handle was found: the count goes back to 1. */
    method PutBack(t: Tid, h: Hid, ghost c: Call)
      requires Inv(s) && !s.aborted && IsAt(s, t, Restore(h)) && Did(c, s, trace) && c.t == t
      modifies this
      ensures Inv(s) && !s.aborted && t in s.pc && s.pc[t] == Mut(h) && Exclusive(s, s, t)
      ensures Did(c, s, trace) && OwnSince(c, trace) == OwnSince(c, old(trace)) + [RestoreStrong(t)]
    {
      hide Inv, Enabled, Next, Did, OwnSince, Kept;
      HereOk(s, t);
      RestoreHere(s, t, h);
      Step(RestoreStrong(t), c);
      MutExclusive(s, t);
    }

    /** A new allocation, with one `Arc` owned by `t`. */
    method Elsewhere(t: Tid) returns (other: Shared)
      requires Inv(s) && t in s.pc
      ensures fresh(other) && Inv(other.s) && IdleAt(other.s, t) && Sole(other.s.c, t, 0)
    {
      FewEnough(s);
      NewIsSole(s.pc.Keys, t);
      other := new Shared(s.pc.Keys, t);
    }

    /** Other `Arc`s exist: clone the data into a new allocation, then drop the old handle. */
    method CloneAway(t: Tid, unwinds: bool, ghost c: Call) returns (end: MakeMutEnd, other: Shared?)
      requires Inv(s) && !s.aborted && t in s.pc && s.pc[t].CloneOut? && Did(c, s, trace) && c.t == t
      modifies this
      ensures Inv(s) && t in s.pc && !end.InPlace? && !end.Moved? && (end.Stopped? <==> s.aborted)
      ensures end.Cloned? ==> !unwinds && s.pc[t].Idle? && (old(s).pc[t].h !in s.c.roots || s.consumed == 1)
      ensures end.Unwound? ==> unwinds && s.pc[t].Idle? && Has(s, t, old(s).pc[t].h)
      ensures other != null <==> end.Cloned?
      ensures other != null ==> fresh(other) && Inv(other.s) && IdleAt(other.s, t) && Sole(other.s.c, t, 0)
      ensures Did(c, s, trace)
      ensures end.Unwound? ==> OwnSince(c, trace) == OwnSince(c, old(trace)) + [CloneUnwinds(t)]
      ensures end.Cloned? ==> exists last, own :: DropCall(own, t, old(s).pc[t].h, false, last)
                                && OwnSince(c, trace) == OwnSince(c, old(trace)) + ([CloneData(t)] + own)
    {
      hide Inv, Enabled, Next, Sole, Did, OwnSince, Kept, DropCall;
      var h := s.pc[t].h;
      end, other := Stopped, null;
      Others(t, c);
      if s.aborted { return; }
      HereOk(s, t);
      CloneOutHere(s, t);
      if unwinds {
        CloneUnwindsKeepsArc(s, t);
        Step(CloneUnwinds(t), c);
        end := Unwound;
        return;
      }
      Step(CloneData(t), c);
      var made := Elsewhere(t);
      Others(t, c);
      if s.aborted { return; }
      DropOldHere(s, t, h);
      ghost var m, tm := s, trace;
      var last := DropArc(t, h, false);
      Then(c, m, tm, s, trace);
      if !s.aborted {
        end, other := Cloned, made;
        ghost var own := OwnSince(Call(t, m, tm), trace);
        assert OwnSince(c, trace) == OwnSince(c, old(trace)) + ([CloneData(t)] + own);
      }
    }

    // ---- drop, into_inner, try_unwrap ----

    /** `Arc::drop`, and `Arc::into_inner`: `last` if the count was 1, and then the data has been
        dropped or, by `into_inner`, returned, which no other call ever does. Otherwise only the
        handle is gone. */
    method DropArc(t: Tid, h: Hid, into: bool) returns (last: bool)
      requires Inv(s) && !s.aborted && At(s, t) && s.c.phase.Counted? && Owns(s, t, h)
      requires s.pc[t].Idle? || (s.pc[t] == DropOld(h) && !into)
      modifies this
      ensures Inv(s) && t in s.pc && (s.aborted || s.pc[t].Idle?)
      ensures last <==> LastS(old(s).c).val == 1
      ensures last && !s.aborted ==> s.consumed == 1 && (into ==> s.returned == 1)
      ensures !last ==> h !in s.c.roots
      ensures var c := Call(t, old(s), old(trace)); Did(c, s, trace) && (!s.aborted ==> DropCall(OwnSince(c, trace), t, h, into, last))
    {
      hide Inv, Enabled, Next, Did, OwnSince, Kept, FinishCall;
      ghost var c := Call(t, s, trace);
      Begins(t, s, trace);
      HereOk(s, t);
      DropArcHere(s, t, h, into);
      DropArcGone(s, t, h, into);
      Step(ArcSteps.DropArc(t, h, into), c);
      last := s.pc[t].Fencing?;
      if last { Finish(t, c); }
    }

    /** `Arc::try_unwrap`: on success the data has been moved out, otherwise the caller keeps the
        `Arc`, having read something else than 1. */
    method TryUnwrap(t: Tid, h: Hid) returns (ok: bool)
      requires Inv(s) && !s.aborted && IdleAt(s, t) && s.c.phase.Counted? && Owns(s, t, h)
      modifies this
      ensures Inv(s) && t in s.pc && (s.aborted || s.pc[t].Idle?)
      ensures ok && !s.aborted ==> s.consumed == 1
      ensures !ok ==> Has(s, t, h) && ReadsOther(old(s).c, old(s).c, t)
      ensures var c := Call(t, old(s), old(trace)); Did(c, s, trace) && (!s.aborted ==> UnwrapWhole(OwnSince(c, trace), t, h, ok))
      ensures UnwrapAlways(old(s), t, h) ==> ok
    {
      hide Inv, Enabled, Next, Did, OwnSince, Kept, UnwrapAlways, FinishCall;
      ghost var c := Call(t, s, trace);
      Begins(t, s, trace);
      HereOk(s, t);
      var k := AnyS(t);
      if s.c.strong[k].val == 1 && LastS(s.c).val != 1 { k := |s.c.strong| - 1; }
      UnwrapHere(s, t, h, k);
      ok := s.c.strong[k].val == 1;
      if ok {
        Step(UnwrapOk(t, h), c);
        Finish(t, c);
      } else {
        MissKeepsArc(s, UnwrapMiss(t, h, k), h);
        Step(UnwrapMiss(t, h, k), c);
        assert OwnSince(c, trace) == [UnwrapMiss(t, h, k)];
        if UnwrapAlways(c.s, t, h) { UnwrapDid(c, h, s, trace); }
      }
    }

    /** What follows once `strong` is 0: the acquire fence, then the data goes. */
    method Finish(t: Tid, ghost c: Call)
      requires Inv(s) && !s.aborted && t in s.pc && s.pc[t].Fencing? && Did(c, s, trace) && c.t == t
      modifies this
      ensures Inv(s) && t in s.pc && (s.aborted || s.pc[t].Idle?)
      ensures !s.aborted ==> s.consumed == 1 && (old(s).pc[t].kind == KInto ==> s.returned == 1)
      ensures Did(c, s, trace)
      ensures !s.aborted ==> exists own :: FinishCall(own, t) && OwnSince(c, trace) == OwnSince(c, old(trace)) + own
    {
      hide Inv, Enabled, Next, Did, OwnSince, Kept, TakeCall;
      var p := s.pc[t];
      Others(t, c);
      if s.aborted { return; }
      HereOk(s, t);
      TakingHere(s, t);
      Step(FenceStrong(t), c);
      Others(t, c);
      if s.aborted { return; }
      TakeData(t, c);
      if !s.aborted {
        ghost var own :| TakeCall(own, t) && OwnSince(c, trace) == OwnSince(c, old(trace)) + [FenceStrong(t)] + own;
        assert ([FenceStrong(t)] + own)[1..] == own;
        assert OwnSince(c, trace) == OwnSince(c, old(trace)) + ([FenceStrong(t)] + own);
      }
    }

    /** The data is dropped, returned or moved elsewhere, then the implicit weak reference dropped. */
    method TakeData(t: Tid, ghost c: Call)
      requires Inv(s) && !s.aborted && t in s.pc && s.pc[t].Consuming? && Did(c, s, trace) && c.t == t
      modifies this
      ensures Inv(s) && t in s.pc && (s.aborted || s.pc[t].Idle?)
      ensures !s.aborted ==> s.consumed == 1 && (old(s).pc[t].kind == KInto ==> s.returned == 1)
      ensures Did(c, s, trace) && Kept(old(s).c, s.c)
      ensures !s.aborted ==> exists own :: TakeCall(own, t) && OwnSince(c, trace) == OwnSince(c, old(trace)) + own
    {
      hide Inv, Enabled, Next, Did, OwnSince, Kept, FreeCall;
      var p := s.pc[t];
      ghost var a := s.c;
      HereOk(s, t);
      TakingHere(s, t);
      Step(Consume(t), c);
      ghost var a1 := s.c;
      Others(t, c);
      KeptTrans(a, a1, s.c);
      if s.aborted { return; }
      HereOk(s, t);
      TakingHere(s, t);
      ReleaseReturns(s, t);
      ghost var a2 := s.c;
      Step(DropImplicitWeak(t), c);
      KeptTrans(a, a2, s.c);
      ghost var a3 := s.c;
      FreeIfLast(t, c);
      KeptTrans(a, a3, s.c);
      if !s.aborted {
        OnceEachInv(s);
        ghost var end :| FreeCall(end, t) && OwnSince(c, trace) == OwnSince(c, old(trace)) + [Consume(t)] + [DropImplicitWeak(t)] + end;
        ghost var own := [Consume(t), DropImplicitWeak(t)] + end;
        assert own[2..] == end && OwnSince(c, trace) == OwnSince(c, old(trace)) + own;
      }
    }

    /** The end of `Weak::drop`: whoever took `weak` to 0 fences and deallocates. */
    method FreeIfLast(t: Tid, ghost c: Call)
      requires Inv(s) && !s.aborted && t in s.pc && (s.pc[t].FreeFencing? || s.pc[t].Idle?) && Did(c, s, trace) && c.t == t
      modifies this
      ensures Inv(s) && t in s.pc && (s.aborted || s.pc[t].Idle?) && Grows(old(s), s)
      ensures if old(s).pc[t].Idle? then s == old(s) else s.aborted || s.freed == 1
      ensures Did(c, s, trace) && Kept(old(s).c, s.c)
      ensures !s.aborted ==> exists own :: FreeCall(own, t) && OwnSince(c, trace) == OwnSince(c, old(trace)) + own
    {
      hide Inv, Enabled, Next, Did, OwnSince, Kept;
      ghost var a := s.c;
      KeptSame(a);
      if s.pc[t].Idle? {
        assert OwnSince(c, trace) == OwnSince(c, old(trace)) + [];
        return;
      }
      Others(t, c);
      if s.aborted { return; }
      HereOk(s, t);
      FreeHere(s, t);
      ghost var a1 := s.c;
      Step(FenceWeak(t), c);
      KeptTrans(a, a1, s.c);
      ghost var a2 := s.c;
      Others(t, c);
      KeptTrans(a, a2, s.c);
      if s.aborted { return; }
      HereOk(s, t);
      FreeHere(s, t);
      ghost var a3 := s.c;
      Step(Free(t), c);
      KeptTrans(a, a3, s.c);
      OnceEachInv(s);
      assert OwnSince(c, trace) == OwnSince(c, old(trace)) + [FenceWeak(t), Free(t)];
    }

    /** `Weak::drop`. */
    method DropWeak(t: Tid, w: Hid)
      requires Inv(s) && !s.aborted && IdleAt(s, t) && w in s.c.weaks && s.c.weaks[w] == {t}
      modifies this
      ensures Inv(s) && t in s.pc && (s.aborted || s.pc[t].Idle?)
      ensures if LastW(old(s).c).val == 1 then s.aborted || s.freed == 1 else w !in s.c.weaks
      ensures var c := Call(t, old(s), old(trace)); Did(c, s, trace) && (!s.aborted ==> DropWeakCall(OwnSince(c, trace), t, w))
    {
      hide Inv, Enabled, Next, Did, OwnSince, Kept, FreeCall;
      ghost var c := Call(t, s, trace);
      Begins(t, s, trace);
      HereOk(s, t);
      DropWeakHere(s, t, w);
      DropWeakGone(s, t, w);
      Step(ArcSteps.DropWeak(t, w), c);
      FreeIfLast(t, c);
    }

    // ---- the two compare-exchange loops, each for so many tries ----

    /** `Weak::upgrade`: `Some` only through a `Weak` that never returned `None` before, and then an
        `Arc` to data that is in place, every write to which happened before; `None` only on having
        read 0, and the panic only on having read more than `MAX_REFCOUNT`. */
    method Upgrade(t: Tid, w: Hid, tries: nat) returns (r: LoopEnd)
      requires Inv(s) && !s.aborted && IdleAt(s, t) && MayUse(s.c, Wk(w), t)
      modifies this
      ensures Inv(s) && t in s.pc
      ensures r.Unfinished? ==> s.aborted || s.pc[t].Up?
      ensures !r.Unfinished? ==> s.pc[t].Idle?
      ensures r.Refused? ==> w in s.nones
      ensures r.Made? ==> Got(s, t, r.handle) && (s.fromNew ==> w !in old(s).nones)
      ensures var c := Call(t, old(s), old(trace));
              Did(c, s, trace) && (!s.aborted || !r.Unfinished? ==> UpgradeCall(OwnSince(c, trace), t, w, tries, r))
      ensures r.Refused? ==> ReadsZero(old(s).c, s.c, t)
      ensures r.Overflow? ==> ReadsTooMany(old(s).c, s.c, t)
    {
      hide Inv, Enabled, Next, Got, Did, OwnSince, Kept, UpLoop;
      ghost var c := Call(t, s, trace);
      Begins(t, s, trace);
      HereOk(s, t);
      var k := AnyS(t);
      UpStartHere(s, t, w, k);
      UpRefused(s, UpStart(t, w, k));
      ghost var m, tm := s, trace;
      Step(UpStart(t, w, k), c);
      UpLoopBegins(t, w, k);
      assert OwnSince(c, trace) == [UpStart(t, w, k)];
      ReadAt(c, m, tm, s.c, k);
      ghost var seen := k;
      for i := 0 to tries
        invariant Inv(s) && !s.aborted && t in s.pc && Did(c, s, trace)
        invariant InLoop(s, t, w, seen) && MayReadS(c.s.c, s.c, t, seen)
        invariant UpLoop(OwnSince(c, trace), t, w) && |OwnSince(c, trace)| == i + 1
      {
        if s.pc[t].Idle? { return Refused; }
        r, seen := TryUpgrade(t, w, c, seen);
        if !r.Unfinished? || s.aborted { return; }
      }
      r := if s.pc[t].Idle? then Refused else Unfinished;
    }

    /** One turn of the loop of `upgrade`: test what was read, and exchange. */
    method TryUpgrade(t: Tid, w: Hid, ghost c: Call, ghost was: nat) returns (r: LoopEnd, ghost seen: nat)
      requires Inv(s) && !s.aborted && t in s.pc && s.pc[t].Up? && s.pc[t].w == w && c.t == t && Did(c, s, trace)
      requires InLoop(s, t, w, was) && MayReadS(c.s.c, s.c, t, was) && UpLoop(OwnSince(c, trace), t, w)
      modifies this
      ensures Inv(s) && t in s.pc && Did(c, s, trace) && !r.Refused?
      ensures r.Made? ==> s.pc[t].Idle? && Got(s, t, r.handle) && (s.fromNew ==> w !in c.s.nones)
      ensures r.Overflow? ==> s.pc[t].Idle? && ReadsTooMany(c.s.c, s.c, t)
      ensures !r.Unfinished? ==> UpgradeCall(OwnSince(c, trace), t, w, |OwnSince(c, old(trace))|, r)
      ensures r.Unfinished? && !s.aborted ==>
                InLoop(s, t, w, seen) && MayReadS(c.s.c, s.c, t, seen)
                && UpLoop(OwnSince(c, trace), t, w) && |OwnSince(c, trace)| == |OwnSince(c, old(trace))| + 1
      ensures r.Unfinished? && s.aborted ==> s.pc[t].Up?
    {
      hide Inv, Enabled, Next, Got, Did, OwnSince, Kept, UpLoop, UpgradeCall;
      r, seen := Unfinished, was;
      ghost var a, own := s.c, OwnSince(c, trace);
      Others(t, c);
      ReadOn(c.s.c, a, s.c, t, was);
      if s.aborted { return; }
      HereOk(s, t);
      var k := AnyS(t);
      UpHere(s, t, k);
      ghost var m, tm := s, trace;
      if s.pc[t].n > MAX_REFCOUNT {
        Step(UpPanic(t), c);
        UpLoopOn(own, t, w, UpPanic(t));
        ReadOn(c.s.c, m.c, s.c, t, was);
        return Overflow, was;
      }
      var spurious: bool := *;
      if LastS(s.c).val == s.pc[t].n && !spurious {
        UpOkFresh(s, t);
        DidNones(c, s, trace);
        var h := s.c.nextH;
        Step(UpOk(t), c);
        UpLoopOn(own, t, w, UpOk(t));
        UpOkGives(m, t);
        return Made(h), was;
      }
      UpRefused(s, UpRetry(t, k));
      Step(UpRetry(t, k), c);
      UpLoopOn(own, t, w, UpRetry(t, k));
      ReadAt(c, m, tm, s.c, k);
      seen := k;
    }

    /** `Arc::downgrade`: spins while `weak` is locked, and then makes a `Weak` that `t` owns. */
    method Downgrade(t: Tid, h: Hid, tries: nat) returns (r: LoopEnd)
      requires Inv(s) && !s.aborted && IdleAt(s, t) && IsArc(s, t, h)
      modifies this
      ensures Inv(s) && t in s.pc
      ensures !r.Refused? && (r.Unfinished? ==> s.aborted || s.pc[t].Down?)
      ensures !r.Unfinished? ==> s.pc[t].Idle?
      ensures r.Made? ==> HasWeak(s, t, r.handle)
      ensures var c := Call(t, old(s), old(trace));
              Did(c, s, trace) && (!s.aborted || !r.Unfinished? ==> DowngradeCall(OwnSince(c, trace), t, h, tries, r))
      ensures r.Overflow? ==> ReadsTooManyW(old(s).c, s.c, t)
    {
      hide Inv, Enabled, Next, HasWeak, Did, OwnSince, Kept, DownLoop;
      ghost var c := Call(t, s, trace);
      Begins(t, s, trace);
      r := Unfinished;
      HereOk(s, t);
      var k := AnyW(t);
      DownStartHere(s, t, h, k);
      ghost var m, tm := s, trace;
      Step(DownStart(t, h, k), c);
      DownLoopBegins(t, h, k);
      assert OwnSince(c, trace) == [DownStart(t, h, k)];
      WeakReadAt(c, m, tm, s.c, k);
      ghost var seen := k;
      for i := 0 to tries
        invariant Inv(s) && !s.aborted && t in s.pc && s.pc[t].Down? && s.pc[t].h == h && Did(c, s, trace)
        invariant InDownLoop(s, t, seen) && MayReadW(c.s.c, s.c, t, seen)
        invariant DownLoop(OwnSince(c, trace), t, h) && |OwnSince(c, trace)| == i + 1
      {
        r, seen := TryDowngrade(t, h, c, seen);
        if !r.Unfinished? || s.aborted { return; }
      }
      r := Unfinished;
    }

    /** One turn of the loop of `downgrade`: spin while locked, else test what was read, and exchange. */
    method TryDowngrade(t: Tid, h: Hid, ghost c: Call, ghost was: nat) returns (r: LoopEnd, ghost seen: nat)
      requires Inv(s) && !s.aborted && t in s.pc && s.pc[t].Down? && s.pc[t].h == h && c.t == t && Did(c, s, trace)
      requires InDownLoop(s, t, was) && MayReadW(c.s.c, s.c, t, was) && DownLoop(OwnSince(c, trace), t, h)
      modifies this
      ensures Inv(s) && t in s.pc && Did(c, s, trace) && !r.Refused?
      ensures r.Made? ==> s.pc[t].Idle? && HasWeak(s, t, r.handle)
      ensures r.Overflow? ==> s.pc[t].Idle? && ReadsTooManyW(c.s.c, s.c, t)
      ensures !r.Unfinished? ==> DowngradeCall(OwnSince(c, trace), t, h, |OwnSince(c, old(trace))|, r)
      ensures r.Unfinished? ==> s.pc[t].Down? && s.pc[t].h == h
      ensures r.Unfinished? && !s.aborted ==>
                InDownLoop(s, t, seen) && MayReadW(c.s.c, s.c, t, seen)
                && DownLoop(OwnSince(c, trace), t, h) && |OwnSince(c, trace)| == |OwnSince(c, old(trace))| + 1
    {
      hide Inv, Enabled, Next, HasWeak, Did, OwnSince, Kept, DownLoop, DowngradeCall;
      r, seen := Unfinished, was;
      ghost var a, own := s.c, OwnSince(c, trace);
      Others(t, c);
      WeakReadOn(c.s.c, a, s.c, t, was);
      if s.aborted { return; }
      HereOk(s, t);
      var k := AnyW(t);
      DownHere(s, t, k);
      ghost var m, tm := s, trace;
      if s.pc[t].n == USIZE_MAX {
        Step(DownSpin(t, k), c);
        DownLoopOn(own, t, h, DownSpin(t, k));
      } else if s.pc[t].n > MAX_REFCOUNT {
        Step(DownPanic(t), c);
        DownLoopOn(own, t, h, DownPanic(t));
        WeakReadOn(c.s.c, m.c, s.c, t, was);
        return Overflow, was;
      } else {
        var spurious: bool := *;
        if LastW(s.c).val == s.pc[t].n && !spurious {
          DownOkGives(s, t);
          var w := s.c.nextH;
          Step(DownOk(t), c);
          DownLoopOn(own, t, h, DownOk(t));
          return Made(w), was;
        }
        Step(DownRetry(t, k), c);
        DownLoopOn(own, t, h, DownRetry(t, k));
      }
      WeakReadAt(c, m, tm, s.c, k);
      seen := k;
    }

    /** `Weak::weak_count`: the number of `Weak` handles when it loaded `weak`, or 0 if it then read
        0 from `strong`. */
    method WeakCount(t: Tid, w: Hid) returns (n: int)
      requires Inv(s) && !s.aborted && IdleAt(s, t) && MayUse(s.c, Wk(w), t)
      modifies this
      ensures Inv(s) && t in s.pc
      ensures !s.aborted ==> n == s.counted.0
      ensures var c := Call(t, old(s), old(trace));
              Did(c, s, trace) && (!s.aborted ==> exists k, m :: CountedBy(OwnSince(c, trace), t, w, old(s).c, s.c, n, k, m))
    {
      hide Inv, Enabled, Next, Did, OwnSince, Kept;
      ghost var c := Call(t, s, trace);
      Begins(t, s, trace);
      HereOk(s, t);
      var k := AnyW(t);
      CountStartHere(s, t, w, k);
      Step(CountStart(t, w, k), c);
      Others(t, c);
      if s.aborted { return 0; }
      HereOk(s, t);
      var m := AnyS(t);
      CountEndHere(s, t, m);
      CountExact(s, t, m);
      CountEndGives(s, t, m);
      n := if s.c.strong[m].val == 0 then 0 else s.pc[t].n - 1;
      ghost var was, tm := s, trace;
      Step(CountEnd(t, m), c);
      ReadAt(c, was, tm, s.c, m);
      assert CountedBy(OwnSince(c, trace), t, w, old(s).c, s.c, n, k, m);
    }
  }
}
