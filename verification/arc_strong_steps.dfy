/** Steps that move the strong count keep the invariant. */
module ArcStrongSteps {
  import opened Common
  import opened ArcState
  import opened ArcCore
  import opened ArcStrongKeeps
  import opened ArcSteps
  import opened ArcInvariant
  import opened ArcFrame
  import opened ArcQuietSteps
  import Keeps = ArcCoreKeeps

  /** The pieces of the invariant after a step of `t` through `v` that moved a counter. */
  lemma ActedLocal(s: State, d: State, t: Tid, v: Via)
    requires Inv(s) && CoreInv(d.c) && Sane(d) && Acted(s, d, t, v) && PcOk(d, t)
    requires Frees(d) && Datas(d) && Bounds(d) && News(d) && Intos(d)
    ensures Inv(d)
  {
    hide CoreInv, Frees, Datas, Bounds, News, Intos, NewestFacts, PcOk, Acted;
    Newest(s.c);
    ActedKeys(s, d, t, v);
    ActedOthers(s, d, t, v);
  }

  lemma ActedKeys(s: State, d: State, t: Tid, v: Via)
    requires Acted(s, d, t, v) && Pcs(s) && NewestFacts(s.c)
    ensures t in s.pc && d.pc.Keys == s.pc.Keys
    ensures d.overS <= d.pc.Keys && d.overW <= d.pc.Keys
    ensures d.c.phase.Held? ==> d.c.phase.t in d.pc
  {
    hide OnlyRoot, Leq, PcOk;
  }

  /** What the side predicates say at the start of a step of `t`. */
  lemma Sides(s: State)
    requires Inv(s)
    ensures Sane(s) && Frees(s) && Datas(s) && Bounds(s) && News(s) && Intos(s) && NewestFacts(s.c)
  {
    hide CoreInv, NewestFacts;
    Newest(s.c);
  }

  lemma RevivedWrite(c: Core, d: Core, t: Tid)
    requires Revived(c) && |c.strong| > 0 && |d.strong| == |c.strong| + 1 && d.strong[..|c.strong|] == c.strong
    requires t in d.cur && d.cur[t].s == |c.strong| && d.cur == c.cur[t := d.cur[t]]
    requires forall v, u :: MayUse(d, v, u) ==> u == t || MayUse(c, v, u)
    requires LastS(c).live == {} ==> forall v, u :: MayUse(d, v, u) ==> u == t
    ensures Revived(d)
  {
    forall m, v, u | 0 <= m < |d.strong| - 1 && d.strong[m].live == {} && MayUse(d, v, u) && u in d.cur
      ensures m < d.cur[u].s
    {
      assert d.strong[m] == d.strong[..|c.strong|][m];
      if u != t { assert MayUse(c, v, u); }
    }
  }

  // ---- one more strong handle ----

  /** The core after `clone` or a successful `upgrade`. */
  ghost predicate MoreRoots(c: Core, d: Core, t: Tid) {
    && |c.strong| > 0 && t in c.cur && t in d.cur
    && |d.strong| == |c.strong| + 1 && d.strong[..|c.strong|] == c.strong && d.cur == c.cur[t := d.cur[t]]
    && d.cur[t].s == |c.strong| && Leq(c.cur[t], d.cur[t])
    && d == c.(strong := d.strong, cur := d.cur, acq := d.acq, src := d.src,
               roots := c.roots[c.nextH := {t}], nextH := c.nextH + 1)
    && d.acq.Keys == c.acq.Keys && (forall u :: u in c.acq ==> Leq(c.acq[u], d.acq[u]))
    && c.nextH !in c.roots
    && CoreInv(d) && NewestFacts(d)
  }

  lemma IncSCore(c: Core, t: Tid, via: Via, acquire: bool)
    requires CoreInv(c) && c.phase.Counted? && t in c.cur && MayUse(c, via, t) && (via.Wk? ==> acquire)
    requires |c.roots| < USIZE_MAX
    ensures t in c.acq && |c.strong| > 0 && MoreRoots(c, IncS(c, t, via, acquire), t)
  {
    hide CoreInv, Good, NewestFacts;
    IncSKeeps(c, t, via, acquire);
    Newest(c);
    RmwSFacts(c, t, via, acquire, false, WrapInc(LastS(c).val), c.roots.Keys + {c.nextH});
    Newest(IncS(c, t, via, acquire));
    NextFree(c);
  }

  lemma NextFree(c: Core)
    requires NewestFacts(c)
    ensures c.nextH !in c.roots && c.cur.Keys == c.acq.Keys
  {
  }

  ghost predicate MoreSide(s: State, d: State, t: Tid)
    requires t in s.pc && t in d.pc && |s.c.strong| > 0
  {
    && d == s.(c := d.c, pc := d.pc, overS := d.overS)
    && !FreePc(d.pc[t]) && !FreePc(s.pc[t]) && (d.pc[t].Idle? || d.pc[t].Aborting?) && !s.pc[t].CycReady?
    && (if LastS(s.c).val > MAX_REFCOUNT then d.overS == s.overS + {t} && d.pc[t].Aborting? else d.overS == s.overS)
  }

  lemma MoreRootsStep(s: State, d: State, t: Tid, via: Via)
    requires Inv(s) && s.c.phase.Counted? && t in s.pc && t in d.pc && MayUse(s.c, via, t)
    requires MoreRoots(s.c, d.c, t) && d.pc == s.pc[t := d.pc[t]] && MoreSide(s, d, t)
    requires s.pc[t].Idle? || s.pc[t].Up?
    requires s.fromNew && via.Wk? ==> forall w :: w in s.nones ==> w !in s.c.weaks
    ensures Inv(d)
  {
    hide CoreInv, Pcs, Frees, Datas, Bounds, News, Intos, NewestFacts, PcOk, MoreRoots, MoreSide, Acted;
    Sides(s);
    AtPc(s, t);
    MoreActed(s, d, t, via);
    MoreBounds(s, d, t);
    MoreRest(s, d, t);
    ActedLocal(s, d, t, via);
  }

  lemma MoreActed(s: State, d: State, t: Tid, via: Via)
    requires Sane(s) && s.c.phase.Counted? && t in s.pc && t in d.pc && MayUse(s.c, via, t) && NewestFacts(s.c)
    requires MoreRoots(s.c, d.c, t) && d.pc == s.pc[t := d.pc[t]] && MoreSide(s, d, t) && PcOk(s, t)
    requires s.pc[t].Idle? || s.pc[t].Up?
    ensures CoreInv(d.c) && Sane(d) && Acted(s, d, t, via) && PcOk(d, t)
  {
    hide CoreInv, Acted, PcOk;
    InOrder(d.c, d.c.cur.Keys);
    MoreSane(s, d, t);
    MoreActs(s, d, t, via);
    MorePc(s, d, t);
  }

  lemma InOrder(c: Core, ts: set<Tid>)
    requires NewestFacts(c)
    ensures forall u :: u in c.cur ==> c.cur[u].s < |c.strong|
  {
  }

  lemma MoreSane(s: State, d: State, t: Tid)
    requires Sane(s) && t in s.pc && t in d.pc && MoreRoots(s.c, d.c, t) && d.pc == s.pc[t := d.pc[t]]
    ensures Sane(d) && CoreInv(d.c) && NewestFacts(d.c)
  {
    hide CoreInv, NewestFacts, Leq;
    assert d.c.cur.Keys == s.c.cur.Keys;
  }

  lemma MoreActs(s: State, d: State, t: Tid, via: Via)
    requires Sane(s) && Sane(d) && t in s.pc && t in d.pc && MayUse(s.c, via, t) && s.c.phase.Counted?
    requires MoreRoots(s.c, d.c, t) && d.pc == s.pc[t := d.pc[t]] && MoreSide(s, d, t)
    requires forall u :: u in d.c.cur ==> d.c.cur[u].s < |d.c.strong|
    ensures Acted(s, d, t, via)
  {
    hide CoreInv, NewestFacts;
  }

  lemma MorePc(s: State, d: State, t: Tid)
    requires Sane(s) && Sane(d) && t in s.pc && t in d.pc && PcOk(s, t)
    requires MoreRoots(s.c, d.c, t) && MoreSide(s, d, t) && (s.pc[t].Idle? || s.pc[t].Up?)
    ensures PcOk(d, t)
  {
    hide CoreInv, NewestFacts;
  }

  lemma MoreBounds(s: State, d: State, t: Tid)
    requires Sane(s) && Sane(d) && s.c.phase.Counted? && t in s.pc && t in d.pc && NewestFacts(s.c) && Bounds(s)
    requires MoreRoots(s.c, d.c, t) && d.pc == s.pc[t := d.pc[t]] && MoreSide(s, d, t) && PcOk(s, t)
    requires s.pc[t].Idle? || s.pc[t].Up?
    ensures Bounds(d)
  {
    hide NewestFacts, MoreRoots, PcFacts, Live;
    MoreVal(s.c, d.c, t);
    assert d.pc.Keys == s.pc.Keys;
    assert t !in s.overS;
  }

  lemma MoreVal(c: Core, d: Core, t: Tid)
    requires NewestFacts(c) && MoreRoots(c, d, t) && c.phase.Counted?
    ensures LastS(d).val == LastS(c).val + 1 && d.weak == c.weak && |c.weak| > 0
  {
    hide CoreInv;
    assert Live(d) == Live(c) + {c.nextH};
  }

  lemma MoreRest(s: State, d: State, t: Tid)
    requires Sane(s) && Sane(d) && s.c.phase.Counted? && t in s.pc && t in d.pc && NewestFacts(s.c)
    requires MoreRoots(s.c, d.c, t) && d.pc == s.pc[t := d.pc[t]] && MoreSide(s, d, t)
    requires Frees(s) && Datas(s) && News(s) && Intos(s)
    ensures Frees(d) && Datas(d) && News(d) && Intos(d)
  {
    hide CoreInv, Frees, Leq;
    SameFrees(s, d, t);
    if s.fromNew { RevivedWrite(s.c, d.c, t); }
  }

  lemma CloneKeeps(s: State, t: Tid, h: Hid)
    requires Inv(s) && Enabled(s, Clone(t, h))
    ensures Inv(Next(s, Clone(t, h)))
  {
    hide CoreInv, Pcs, Frees, Datas, Bounds, News, Intos, NewestFacts, PcOk, MoreRoots;
    RootsBound(s);
    IncSCore(s.c, t, Root(h), false);
    MoreRootsStep(s, Next(s, Clone(t, h)), t, Root(h));
  }

  lemma RootsBound(s: State)
    requires Inv(s) && s.c.phase.Counted?
    ensures |s.c.roots| < USIZE_MAX && |s.c.strong| > 0 && LastS(s.c).val == |s.c.roots| > 0
  {
    hide CoreInv, Frees, Datas, News, Intos, PcOk;
    Newest(s.c);
    CardMono(s.overS, s.pc.Keys);
    assert |s.c.roots.Keys| == |s.c.roots|;
  }

  /** While a flagged `Weak` exists, `upgrade` cannot succeed. */
  lemma UpOkKeeps(s: State, t: Tid)
    requires t in s.pc && s.pc[t].Up? && Inv(s) && Enabled(s, UpOk(t))
    ensures Inv(Next(s, UpOk(t)))
    ensures s.fromNew ==> s.pc[t].w !in s.nones
  {
    hide CoreInv, Pcs, Frees, Datas, Bounds, News, Intos, NewestFacts, MoreRoots;
    AtPc(s, t);
    NotZero(s);
    RootsBound(s);
    if s.fromNew { NonesGone(s); }
    IncSCore(s.c, t, Wk(s.pc[t].w), true);
    MoreRootsStep(s, Next(s, UpOk(t)), t, Wk(s.pc[t].w));
  }

  lemma NotZero(s: State)
    requires Inv(s)
    ensures |s.c.strong| > 0 && (LastS(s.c).val > 0 ==> s.c.phase.Counted?)
  {
    hide CoreInv, Frees, Datas, News, Intos, PcOk, Bounds;
    Newest(s.c);
  }

  lemma NonesGone(s: State)
    requires Inv(s) && s.c.phase.Counted? && s.fromNew
    ensures forall w :: w in s.nones ==> w !in s.c.weaks
  {
    hide CoreInv, Frees, Datas, Intos, PcOk, Bounds;
  }

  // ---- one strong handle less, and the count put back from 0 ----

  /** `t` appended a write to `strong`; roots and phase are said separately. */
  ghost predicate Moved(c: Core, d: Core, t: Tid) {
    && |c.strong| > 0 && t in c.cur && t in d.cur
    && |d.strong| == |c.strong| + 1 && d.strong[..|c.strong|] == c.strong && d.cur == c.cur[t := d.cur[t]]
    && d.cur[t].s == |c.strong| && Leq(c.cur[t], d.cur[t])
    && d == c.(strong := d.strong, cur := d.cur, acq := d.acq, src := d.src, roots := d.roots, phase := d.phase)
    && d.acq.Keys == c.acq.Keys && (forall u :: u in c.acq ==> Leq(c.acq[u], d.acq[u]))
    && CoreInv(d) && NewestFacts(d)
  }

  lemma MovedSane(s: State, d: State, t: Tid)
    requires Sane(s) && t in s.pc && t in d.pc && Moved(s.c, d.c, t) && d.pc == s.pc[t := d.pc[t]]
    ensures Sane(d) && CoreInv(d.c) && NewestFacts(d.c)
    ensures forall u :: u in d.c.cur ==> d.c.cur[u].s < |d.c.strong|
  {
    hide CoreInv, Leq;
    assert d.c.cur.Keys == s.c.cur.Keys;
  }

  /** The roots after the step: `h`, used by `t` alone, is gone or stays the only one. */
  ghost predicate OwnRoot(s: State, d: State, t: Tid, h: Hid) {
    && Owns(s, t, h) && d.overS == s.overS && d.overW == s.overW && d.freed == s.freed
    && ((d.c.phase == s.c.phase && d.c.roots == s.c.roots - {h})
        || (s.c.roots == map[h := {t}] && d.c.roots == s.c.roots && (s.c.phase.Held? ==> s.c.phase.t == t)
            && (d.c.phase.Held? ==> d.c.phase.t == t)))
    && !s.c.phase.Released? && !d.c.phase.Released?
  }

  lemma OwnActs(s: State, d: State, t: Tid, h: Hid)
    requires Sane(s) && Sane(d) && t in s.pc && t in d.pc && d.pc == s.pc[t := d.pc[t]]
    requires Moved(s.c, d.c, t) && OwnRoot(s, d, t, h)
    requires forall u :: u in d.c.cur ==> d.c.cur[u].s < |d.c.strong|
    ensures Acted(s, d, t, Root(h))
  {
    hide CoreInv, NewestFacts;
    assert |map[h := {t}]| == 1;
  }

  lemma OwnBounds(s: State, d: State, t: Tid, h: Hid)
    requires Sane(s) && Sane(d) && Bounds(s) && t in s.pc && t in d.pc && d.pc == s.pc[t := d.pc[t]]
    requires Moved(s.c, d.c, t) && OwnRoot(s, d, t, h) && NewestFacts(s.c)
    ensures Bounds(d)
  {
    hide CoreInv, Leq;
    assert d.pc.Keys == s.pc.Keys;
    CardMono(s.c.roots.Keys - {h}, s.c.roots.Keys);
    assert (s.c.roots - {h}).Keys == s.c.roots.Keys - {h};
    assert |{h}| == 1;
  }

  lemma OwnNews(s: State, d: State, t: Tid, h: Hid)
    requires Sane(s) && t in s.pc && Moved(s.c, d.c, t) && OwnRoot(s, d, t, h) && News(s) && NewestFacts(s.c)
    requires d.fromNew == s.fromNew && d.nones == s.nones && (s.fromNew ==> !d.c.phase.UniqueB? && !d.c.phase.CyclicB?)
    requires s.fromNew && !s.c.phase.Counted? ==> s.c.weaks == map[]
    ensures News(d)
  {
    hide CoreInv, Leq;
    if s.fromNew { RevivedWrite(s.c, d.c, t); }
  }

  /** Common to every step that takes away `h` or turns it into, or back from, the lone holder. */
  lemma OwnStep(s: State, d: State, t: Tid, h: Hid)
    requires Inv(s) && t in s.pc && t in d.pc && d.pc == s.pc[t := d.pc[t]]
    requires Moved(s.c, d.c, t) && OwnRoot(s, d, t, h)
    requires d.fromNew == s.fromNew && d.nones == s.nones && (s.fromNew ==> !d.c.phase.UniqueB? && !d.c.phase.CyclicB?)
    requires s.fromNew && !s.c.phase.Counted? ==> s.c.weaks == map[]
    requires !FreePc(d.pc[t]) && !FreePc(s.pc[t])
    requires Sane(d) && NewestFacts(s.c) ==> PcOk(d, t) && Datas(d) && Intos(d)
    ensures Inv(d)
  {
    hide CoreInv, Pcs, Frees, Datas, Bounds, News, Intos, NewestFacts, PcOk, Moved, OwnRoot, Acted;
    Sides(s);
    MovedSane(s, d, t);
    OwnActs(s, d, t, h);
    OwnBounds(s, d, t, h);
    OwnNews(s, d, t, h);
    OwnWeak(s, d, t, h);
    SameFrees(s, d, t);
    ActedLocal(s, d, t, Root(h));
  }

  lemma OwnWeak(s: State, d: State, t: Tid, h: Hid)
    requires |s.c.weak| > 0 && Moved(s.c, d.c, t) && OwnRoot(s, d, t, h)
    ensures d.c.weak == s.c.weak && d.freed == s.freed
  {
  }

  // ---- the cores ----

  lemma DecSCore(c: Core, t: Tid, h: Hid, acquire: bool, release: bool)
    requires CoreInv(c) && c.phase.Counted? && t in c.cur && h in c.roots && c.roots[h] == {t} && c.lock != Some(t)
    requires acquire ==> !release
    requires |c.roots| != 1 ==> release
    requires c.lock.Some? ==> |c.roots| != 1
    ensures t in c.acq && |c.strong| > 0 && Moved(c, DecS(c, t, h, acquire, release), t)
    ensures LastS(c).val == |c.roots| && (|c.roots| == 1 ==> c.roots == map[h := {t}])
    ensures DecS(c, t, h, acquire, release).phase == if |c.roots| == 1 then Held(t, acquire) else Counted
    ensures DecS(c, t, h, acquire, release).roots == if |c.roots| == 1 then c.roots else c.roots - {h}
  {
    hide CoreInv, Good, NewestFacts;
    DecSKeeps(c, t, h, acquire, release);
    Newest(c);
    RmwSFacts(c, t, Root(h), acquire, release, WrapDec(LastS(c).val), c.roots.Keys - {h});
    Newest(DecS(c, t, h, acquire, release));
    OneRoot(c, t, h);
  }

  lemma OneRoot(c: Core, t: Tid, h: Hid)
    requires NewestFacts(c) && h in c.roots && c.roots[h] == {t}
    ensures c.phase.Counted? ==> LastS(c).val == |c.roots|
    ensures |c.roots| == 1 ==> c.roots == map[h := {t}]
    ensures c.cur.Keys == c.acq.Keys
  {
    assert |c.roots.Keys| == |c.roots|;
    if |c.roots| == 1 { SoleElement(c.roots.Keys, h); }
  }

  lemma StoreOneCore(c: Core, t: Tid, h: Hid)
    requires CoreInv(c) && t in c.cur && h in c.roots && c.roots[h] == {t}
    requires (c.phase == Held(t, true) && c.weaks == map[]) || c.phase.UniqueB?
    ensures Moved(c, StoreOne(c, t, h), t) && c.roots == map[h := {t}]
  {
    hide CoreInv, Good, NewestFacts;
    StoreOneKeeps(c, t, h);
    Newest(c);
    Newest(StoreOne(c, t, h));
    OneRoot(c, t, h);
    LoneRootCount(c);
    StoreViews(c, t, h);
  }

  lemma LoneRootCount(c: Core)
    requires NewestFacts(c) && !c.phase.Counted? && !c.phase.Released?
    ensures |c.roots| == 1 && |c.strong| > 0 && (c.phase.Held? || |c.strong| == 1)
  {
  }

  lemma StoreViews(c: Core, t: Tid, h: Hid)
    requires NewestFacts(c) && t in c.cur
    ensures var d := StoreOne(c, t, h); d.cur[t].s == |c.strong| && Leq(c.cur[t], d.cur[t])
  {
  }

  lemma AddOneCore(c: Core, t: Tid, h: Hid)
    requires CoreInv(c) && t in c.cur && h in c.roots && c.roots[h] == {t} && c.phase.CyclicB?
    ensures t in c.acq && |c.strong| > 0 && Moved(c, AddOne(c, t, h), t) && c.roots == map[h := {t}]
  {
    hide CoreInv, Good, NewestFacts;
    AddOneKeeps(c, t, h);
    Newest(c);
    RmwSFacts(c, t, Root(h), false, true, WrapInc(LastS(c).val), {h});
    Newest(AddOne(c, t, h));
    OneRoot(c, t, h);
    LoneRootCount(c);
  }

  // ---- the steps ----

  /** The lock holder uses some root, so the last strong handle is never dropped under the lock. */
  lemma LockedHasOther(s: State, t: Tid, h: Hid)
    requires Inv(s) && Owns(s, t, h) && t in s.pc && !LockPc(s.pc[t])
    ensures s.c.lock != Some(t) && (s.c.lock.Some? ==> |s.c.roots| != 1)
  {
    hide CoreInv, Frees, Datas, Bounds, News, Intos;
    Newest(s.c);
    assert PcOk(s, t);
    if s.c.lock.Some? && |s.c.roots| == 1 {
      OneRoot(s.c, t, h);
      LockUser(s);
    }
  }

  lemma LockUser(s: State)
    requires Sane(s) && Pcs(s) && s.c.lock.Some? && s.c.lock.value in s.c.cur
    ensures exists g :: MayUse(s.c, Root(g), s.c.lock.value)
  {
    var u := s.c.lock.value;
    assert PcOk(s, u);
    assert MayUse(s.c, Root(s.pc[u].h), u);
  }

  lemma DropArcKeeps(s: State, t: Tid, h: Hid, into: bool)
    requires Inv(s) && Enabled(s, DropArc(t, h, into))
    ensures Inv(Next(s, DropArc(t, h, into)))
  {
    hide CoreInv, Pcs, Frees, Datas, Bounds, News, Intos, NewestFacts, PcOk, Moved;
    AtPc(s, t);
    LockedHasOther(s, t, h);
    DecSCore(s.c, t, h, false, true);
    var d := Next(s, DropArc(t, h, into));
    if Sane(d) { DropArcPc(s, d, t, h, into); DropArcData(s, d, t, h, into); }
    OwnStep(s, d, t, h);
  }

  lemma DropArcPc(s: State, d: State, t: Tid, h: Hid, into: bool)
    requires Sane(s) && Sane(d) && Enabled(s, DropArc(t, h, into)) && d == Next(s, DropArc(t, h, into))
    requires PcOk(s, t) && Datas(s) && LastS(s.c).val == |s.c.roots| && (|s.c.roots| == 1 ==> s.c.roots == map[h := {t}])
    ensures PcOk(d, t)
  {
  }

  lemma DropArcData(s: State, d: State, t: Tid, h: Hid, into: bool)
    requires Sane(s) && Sane(d) && Enabled(s, DropArc(t, h, into)) && d == Next(s, DropArc(t, h, into))
    requires Datas(s) && Intos(s)
    ensures Datas(d) && Intos(d)
  {
  }

  lemma TakeKeeps(s: State, l: Label)
    requires Inv(s) && Enabled(s, l) && (l.UnwrapOk? || l.MakeMutTake?)
    ensures Inv(Next(s, l))
  {
    hide CoreInv, Pcs, Frees, Datas, Bounds, News, Intos, NewestFacts, PcOk, Moved;
    var t, h := l.t, l.h;
    AtPc(s, t);
    LockedHasOther(s, t, h);
    CountOf(s.c);
    DecSCore(s.c, t, h, l.MakeMutTake?, false);
    var d := Next(s, l);
    if Sane(d) { TakePc(s, d, l); TakeData(s, d, l); }
    OwnStep(s, d, t, h);
  }

  lemma CountOf(c: Core)
    requires NewestFacts(c) && c.phase.Counted?
    ensures LastS(c).val == |c.roots|
  {
    assert |c.roots.Keys| == |c.roots|;
  }

  lemma TakePc(s: State, d: State, l: Label)
    requires Sane(s) && Sane(d) && Enabled(s, l) && (l.UnwrapOk? || l.MakeMutTake?) && d == Next(s, l)
    requires PcOk(s, l.t) && Datas(s) && LastS(s.c).val == |s.c.roots| && (|s.c.roots| == 1 ==> s.c.roots == map[l.h := {l.t}])
    ensures PcOk(d, l.t)
  {
  }

  lemma TakeData(s: State, d: State, l: Label)
    requires Sane(s) && Sane(d) && Enabled(s, l) && (l.UnwrapOk? || l.MakeMutTake?) && d == Next(s, l)
    requires Datas(s) && Intos(s)
    ensures Datas(d) && Intos(d)
  {
  }

  lemma RestoreKeeps(s: State, t: Tid)
    requires Inv(s) && Enabled(s, RestoreStrong(t))
    ensures Inv(Next(s, RestoreStrong(t)))
  {
    hide CoreInv, Pcs, Frees, Datas, Bounds, News, Intos, NewestFacts, Moved;
    AtPc(s, t);
    var h := s.pc[t].h;
    StoreOneCore(s.c, t, h);
    var d := Next(s, RestoreStrong(t));
    UsesKnown(s.c, t);
    NoLock(s.c);
    if Sane(d) { RestoreData(s, d, t); }
    OwnStep(s, d, t, h);
  }

  lemma NoLock(c: Core)
    requires NewestFacts(c)
    ensures c.lock.Some? ==> c.phase.Counted?
  {
  }

  /** The fenced keeper has observed every access to the data. */
  lemma UsesKnown(c: Core, t: Tid)
    requires CoreInv(c) && c.phase == Held(t, true)
    ensures t in c.cur && c.uses <= c.cur[t].ev
  {
    hide Views, StrongOk, WeakOk, Seen, Visible;
    forall e | e in c.uses ensures e in c.cur[t].ev {
      assert Covered(c, e);
      if u :| MayUse(c, c.src[e], u) && Knows(c, u, e) { assert u == t; }
    }
  }

  lemma RestoreData(s: State, d: State, t: Tid)
    requires Sane(s) && Sane(d) && Enabled(s, RestoreStrong(t)) && d == Next(s, RestoreStrong(t)) && PcOk(s, t)
    requires Datas(s) && Intos(s)
    ensures Datas(d) && Intos(d)
  {
  }

  lemma IntoArcKeeps(s: State, t: Tid, b: Hid)
    requires Inv(s) && Enabled(s, IntoArc(t, b))
    ensures Inv(Next(s, IntoArc(t, b)))
  {
    hide CoreInv, Pcs, Frees, Datas, Bounds, News, Intos, NewestFacts, Moved;
    AtPc(s, t);
    StoreOneCore(s.c, t, b);
    var d := Next(s, IntoArc(t, b));
    NoLock(s.c);
    NotNew(s);
    if Sane(d) { IntoArcData(s, d, t, b); }
    OwnStep(s, d, t, b);
  }

  lemma NotNew(s: State)
    requires Inv(s)
    ensures s.fromNew ==> !s.c.phase.UniqueB? && !s.c.phase.CyclicB?
    ensures s.c.phase.UniqueB? || s.c.phase.CyclicB? ==> !Written(s.c)
  {
    hide CoreInv, Pcs, Frees, Datas, Bounds, Intos;
    Newest(s.c);
  }

  lemma IntoArcData(s: State, d: State, t: Tid, b: Hid)
    requires Sane(s) && Sane(d) && Enabled(s, IntoArc(t, b)) && d == Next(s, IntoArc(t, b))
    requires Datas(s) && Intos(s)
    ensures Datas(d) && Intos(d)
  {
  }

  lemma CycPublishKeeps(s: State, t: Tid)
    requires Inv(s) && Enabled(s, CycPublish(t))
    ensures Inv(Next(s, CycPublish(t)))
  {
    hide CoreInv, Pcs, Frees, Datas, Bounds, News, Intos, NewestFacts, Moved, Enabled, Next, AddOne, PcOk, EnabledLate, NextLate;
    LateNext(s, CycPublish(t));
    AtPc(s, t);
    NotNew(s);
    NoLock(s.c);
    CycPublishAt(s, t);
    var b := s.pc[t].b;
    AddOneCore(s.c, t, b);
    var d := Next(s, CycPublish(t));
    CycPublishEnd(s, d, t);
    OwnStep(s, d, t, b);
  }

  lemma CycPublishAt(s: State, t: Tid)
    requires Enabled(s, CycPublish(t)) && t in s.pc && Sane(s) && PcOk(s, t)
    ensures s.pc[t].CycReady? && s.c.phase.CyclicB? && s.c.roots == map[s.pc[t].b := {t}]
    ensures t in s.c.cur && t in s.c.acq
    ensures Next(s, CycPublish(t)) == Go(s, AddOne(s.c, t, s.pc[t].b), t, Idle)
  {
    hide Enabled, Next, AddOne;
    LateNext(s, CycPublish(t));
  }

  lemma CycPublishEnd(s: State, d: State, t: Tid)
    requires Sane(s) && Enabled(s, CycPublish(t)) && d == Next(s, CycPublish(t)) && PcOk(s, t) && Datas(s) && Intos(s)
    requires s.c.lock.Some? ==> s.c.phase.Counted?
    ensures Sane(d) ==> PcOk(d, t) && Datas(d) && Intos(d)
    ensures d.c.phase.Counted? && d.c.roots == s.c.roots
  {
    hide Enabled, Next, Datas, Intos;
    LateNext(s, CycPublish(t));
    if Sane(d) { CycPublishData(s, d, t); }
  }

  lemma CycPublishData(s: State, d: State, t: Tid)
    requires Sane(s) && Sane(d) && Enabled(s, CycPublish(t)) && d == Next(s, CycPublish(t)) && PcOk(s, t)
    requires Datas(s) && Intos(s)
    ensures Datas(d) && Intos(d)
  {
  }

  lemma DropUniqueKeeps(s: State, t: Tid, b: Hid)
    requires Inv(s) && Enabled(s, DropUnique(t, b))
    ensures Inv(Next(s, DropUnique(t, b)))
  {
    hide CoreInv, Pcs, Frees, Datas, Bounds, News, Intos, NewestFacts, Acted, Enabled, Next;
    LateNext(s, DropUnique(t, b));
    Sides(s);
    AtPc(s, t);
    LoneRootCount(s.c);
    OneRoot(s.c, t, b);
    TakeUniqueKeeps(s.c, t);
    var d := Next(s, DropUnique(t, b));
    InOrder(s.c, {});
    NoLock(s.c);
    NotNew(s);
    DropUniqueActs(s, d, t, b);
    DropUniqueRest(s, d, t, b);
    WholeUnique(s);
    ActedLocal(s, d, t, Root(b));
  }

  lemma WholeUnique(s: State)
    requires Sane(s) && Datas(s) && s.c.phase.UniqueB?
    ensures s.data.Whole?
  {
  }

  lemma DropUniqueActs(s: State, d: State, t: Tid, b: Hid)
    requires Sane(s) && Enabled(s, DropUnique(t, b)) && d == Next(s, DropUnique(t, b)) && s.c.roots == map[b := {t}]
    requires forall u :: u in s.c.cur ==> s.c.cur[u].s < |s.c.strong|
    ensures Sane(d) && Acted(s, d, t, Root(b))
  {
    hide Enabled, Next, Leq;
    LateNext(s, DropUnique(t, b));
    LeqSame();
    assert |map[b := {t}]| == 1;
  }

  lemma LeqSame()
    ensures forall v: View :: Leq(v, v)
  {
  }

  lemma DropUniqueRest(s: State, d: State, t: Tid, b: Hid)
    requires Sane(s) && Sane(d) && Enabled(s, DropUnique(t, b)) && d == Next(s, DropUnique(t, b)) && !s.fromNew && |s.c.strong| == 1
    requires Frees(s) && Datas(s) && Bounds(s) && News(s) && Intos(s)
    ensures Frees(d) && Datas(d) && Bounds(d) && News(d) && Intos(d)
  {
    hide Frees;
    SameFrees(s, d, t);
    assert d.pc.Keys == s.pc.Keys;
  }
}
