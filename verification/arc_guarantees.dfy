/** Exclusive access, race freedom, single consumption and single free, under stale loads. */
module ArcGuarantees {
  import opened Common
  import opened ArcState
  import opened ArcCore
  import opened ArcSteps
  import opened ArcInvariant
  import opened ArcFrame
  import opened ArcQuietSteps
  import opened ArcTheorems
  import Strong = ArcStrongSteps
  import Data = ArcDataSteps

  // ---- exclusive access ----

  /** `t` is inside `get_mut` on `h`, and its check came out true. */
  predicate FoundUnique(s: State, t: Tid, h: Hid) { t in s.pc && s.pc[t] == UqLoaded(h, true, true) }

  /** In `d`, entered from `s`, `t` has the only handle as a `&mut T`, and knew everything before. */
  predicate Unrivalled(s: State, d: State, t: Tid, h: Hid) {
    t in d.pc && d.pc[t] == Mut(h) && Sole(d.c, t, h) && AllKnown(s.c, t) && AllKnown(d.c, t)
  }

  /** When the uniqueness check of `get_mut` comes out true, no other `Arc` or `Weak` exists and
      everything ever done through any other handle happened before the return. */
  lemma GetMutIsExclusive(s: State, t: Tid, h: Hid)
    requires Reachable(s) && FoundUnique(s, t, h) && Enabled(s, UqUnlock(t))
    ensures Unrivalled(s, Next(s, UqUnlock(t)), t, h) && |s.c.strong| > 0 && LastS(s.c).val == 1
  {
    hide Inv, Reachable, AllKnown, Enabled, Next;
    ReachableInv(s);
    UniqueFacts(s, t);
    UnlockResult(s, t, h);
    UnlockKnown(s.c, t, h);
  }

  lemma UnlockResult(s: State, t: Tid, h: Hid)
    requires FoundUnique(s, t, h) && Enabled(s, UqUnlock(t))
    ensures t in s.c.cur
    ensures var d := Next(s, UqUnlock(t));
            t in d.pc && d.pc[t] == Mut(h) && d.c == UnlockW(s.c, t, h)
  {
    hide UnlockW, EnabledOwner, EnabledLate, NextOwner, NextLate;
  }

  lemma UniqueFacts(s: State, t: Tid)
    requires Inv(s) && t in s.pc && s.pc[t].UqLoaded? && s.pc[t].excl && s.pc[t].uniq
    ensures s.c.phase.Counted? && s.c.roots == map[s.pc[t].h := {t}] && s.c.weaks == map[]
    ensures AllKnown(s.c, t) && |s.c.strong| > 0 && LastS(s.c).val == 1
  {
    hide CoreInv, Frees, Datas, Bounds, News, Intos, AllKnown;
    Newest(s.c);
    assert PcOk(s, t);
    assert |s.c.roots.Keys| == 1;
  }

  lemma UnlockKnown(c: Core, t: Tid, h: Hid)
    requires t in c.cur && AllKnown(c, t)
    ensures AllKnown(UnlockW(c, t, h), t)
  {
  }

  /** `make_mut` after it took `strong` to 0: it steals the data exactly when it reads something
      else than 1, always when a `Weak` exists, and it restores only when it held the one handle. */
  lemma MakeMutDecides(s: State, t: Tid, k: nat)
    requires Reachable(s) && Enabled(s, WindowLoad(t, k))
    ensures s.c.weaks != map[] ==> Next(s, WindowLoad(t, k)).pc[t] == Consuming(s.pc[t].h, KSteal)
    ensures Next(s, WindowLoad(t, k)).pc[t].Restore? ==> k == |s.c.weak| - 1 && s.c.weaks == map[]
    ensures s.c.roots == map[s.pc[t].h := {t}] && s.c.phase == Held(t, true) && LastS(s.c).val == 0
  {
    hide CoreInv, Inv, Reachable;
    ReachableInv(s);
    WindowHeld(s, t);
    WindowIsLast(s, t);
    WindowLoadIsExact(s.c, t, k);
  }

  lemma WindowIsLast(s: State, t: Tid)
    requires Inv(s) && t in s.pc && (s.pc[t].Window? || s.pc[t].Restore?)
    ensures s.c.roots == map[s.pc[t].h := {t}] && s.c.phase == Held(t, true) && |s.c.strong| > 0 && LastS(s.c).val == 0
    ensures s.pc[t].Restore? ==> s.c.weaks == map[]
  {
    hide CoreInv, Frees, Datas, Bounds, News, Intos;
    Newest(s.c);
    assert PcOk(s, t);
  }

  /** In `d`, entered from `s`, thread `t` holds the only handle, as a `&mut T`, and every use of
      the data happened before. */
  predicate Exclusive(s: State, d: State, t: Tid) {
    t in d.pc && d.pc[t].Mut? && Sole(d.c, t, d.pc[t].h) && t in s.c.cur && d.c.uses <= s.c.cur[t].ev
  }

  /** When `make_mut` puts `strong` back to 1 the caller holds the only handle. */
  lemma MakeMutIsExclusive(s: State, t: Tid)
    requires Reachable(s) && Enabled(s, RestoreStrong(t))
    ensures Exclusive(s, Next(s, RestoreStrong(t)), t)
  {
    hide Inv, Reachable, Enabled, Next;
    ReachableInv(s);
    EnabledAt(s, RestoreStrong(t));
    RestoreStep(s, t);
    WindowIsLast(s, t);
    RestoreFacts(s, t);
  }

  lemma RestoreStep(s: State, t: Tid)
    requires Enabled(s, RestoreStrong(t))
    ensures t in s.pc && t in s.c.cur && s.pc[t].Restore?
    ensures var d := Next(s, RestoreStrong(t));
            && d.pc == s.pc[t := Mut(s.pc[t].h)] && d.c.uses == s.c.uses && d.c.weaks == s.c.weaks
            && d.c.lock == s.c.lock && d.c.phase.Counted? && d.c.roots == s.c.roots
  {
    hide Join;
  }

  lemma RestoreFacts(s: State, t: Tid)
    requires Inv(s) && t in s.c.cur && s.c.phase == Held(t, true)
    ensures s.c.lock == None && s.c.uses <= s.c.cur[t].ev
  {
    hide CoreInv, Local;
    CoreOfInv(s);
    Newest(s.c);
    Strong.UsesKnown(s.c, t);
    Strong.NoLock(s.c);
  }

  /** While a `&mut T` is out, no other thread can touch the allocation at all. */
  lemma MutablyBorrowed(s: State, t: Tid, l: Label)
    requires Reachable(s) && t in s.pc && s.pc[t].Mut? && Enabled(s, l) && l.t != t
    ensures Sole(s.c, t, s.pc[t].h) && s.c.uses <= s.c.cur[t].ev
    ensures Next(s, l).c.src == s.c.src
  {
    hide Pcs, Frees, Datas, Bounds, News, Intos, CoreInv;
    ReachableInv(s);
    AtPc(s, t);
    AtPc(s, l.t);
    OthersSilent(s, t, l);
  }

  lemma OthersSilent(s: State, t: Tid, l: Label)
    requires Enabled(s, l) && l.t != t && PcOk(s, l.t)
    requires t in s.pc && s.pc[t].Mut? && Sole(s.c, t, s.pc[t].h)
    ensures Next(s, l).c.src == s.c.src
  {
    assert forall v :: !MayUse(s.c, v, l.t);
    Silent(s, l);
  }

  ghost predicate NoHandle(c: Core, t: Tid) { forall v :: !MayUse(c, v, t) }

  /** A thread that may use no handle and is not the keeper performs no event. */
  lemma Silent(s: State, l: Label)
    requires Enabled(s, l) && PcOk(s, l.t) && !s.c.phase.Held? && NoHandle(s.c, l.t)
    ensures Next(s, l).c.src == s.c.src && (FreePc(s.pc[l.t]) || Next(s, l).freed == s.freed)
  {
    hide Enabled, Next, PcOk, NoHandle;
    EnabledAt(s, l);
    Stranded(s, l.t);
    SilentLabels(s, l);
    SilentStep(s, l);
  }

  lemma EnabledAt(s: State, l: Label)
    requires Enabled(s, l)
    ensures Sane(s) && l.t in s.pc && l.t in s.c.cur && l.t in s.c.acq
  {
  }

  lemma Stranded(s: State, t: Tid)
    requires Sane(s) && t in s.pc && PcOk(s, t) && NoHandle(s.c, t) && (s.c.phase.Held? ==> s.c.phase.t != t)
    ensures Resigned(s.pc[t])
  {
    hide Leq, Join;
    NoHandleAt(s, t);
  }

  lemma NoHandleAt(s: State, t: Tid)
    requires NoHandle(s.c, t)
    ensures forall h :: !MayUse(s.c, Root(h), t)
    ensures forall h :: h in s.c.roots ==> t !in s.c.roots[h]
    ensures forall h :: s.c.roots != map[h := {t}]
    ensures forall w :: !MayUse(s.c, Wk(w), t)
    ensures forall w :: w in s.c.weaks ==> t !in s.c.weaks[w]
  {
    forall h ensures (h in s.c.roots ==> t !in s.c.roots[h]) && (h in s.c.weaks ==> t !in s.c.weaks[h]) {
      assert !MayUse(s.c, Root(h), t) && !MayUse(s.c, Wk(h), t);
    }
    forall h ensures s.c.roots != map[h := {t}] { assert t in map[h := {t}][h]; }
  }

  predicate Resigned(p: Pc) { p.Idle? || p.FreeFencing? || p.Freeing? || p.Aborting? }

  lemma SilentLabels(s: State, l: Label)
    requires Enabled(s, l) && NoHandle(s.c, l.t) && Resigned(s.pc[l.t])
    ensures l.Sync? || l.Abort? || l.FenceWeak? || l.Free?
  {
    hide EnabledShared, EnabledOwner, EnabledLate, NoHandle;
    NoHandleAt(s, l.t);
    SilentShared(s, l);
    SilentOwner(s, l);
    SilentLate(s, l);
  }

  lemma SilentShared(s: State, l: Label)
    requires Sane(s) && At(s, l.t) && Resigned(s.pc[l.t])
    requires (forall h :: !MayUse(s.c, Root(h), l.t)) && (forall w :: !MayUse(s.c, Wk(w), l.t))
    ensures EnabledShared(s, l) ==> l.Sync? || l.Abort?
  {
  }

  lemma SilentOwner(s: State, l: Label)
    requires Sane(s) && At(s, l.t) && Resigned(s.pc[l.t])
    requires forall h :: h in s.c.roots ==> l.t !in s.c.roots[h]
    ensures !EnabledOwner(s, l)
  {
    forall h ensures !Owns(s, l.t, h) { assert l.t in {l.t}; }
  }

  lemma SilentLate(s: State, l: Label)
    requires Sane(s) && At(s, l.t) && Resigned(s.pc[l.t])
    requires forall h :: h in s.c.roots ==> l.t !in s.c.roots[h]
    requires forall w :: w in s.c.weaks ==> l.t !in s.c.weaks[w]
    requires forall w :: !MayUse(s.c, Wk(w), l.t)
    requires forall h :: !MayUse(s.c, Root(h), l.t)
    ensures EnabledLate(s, l) ==> l.FenceWeak? || l.Free?
  {
    forall h ensures !Owns(s, l.t, h) { assert l.t in {l.t}; }
    forall w ensures w in s.c.weaks ==> s.c.weaks[w] != {l.t} { assert l.t in {l.t}; }
  }

  lemma SilentStep(s: State, l: Label)
    requires Enabled(s, l) && (l.Sync? || l.Abort? || l.FenceWeak? || l.Free?)
    ensures Next(s, l).c.src == s.c.src && (FreePc(s.pc[l.t]) || Next(s, l).freed == s.freed)
  {
    hide Leq, Join;
  }

  // ---- no data race, no use of dead data ----

  predicate ReadsTheData(l: Label) { l.ReadData? || l.CloneData? }

  predicate WritesTheData(l: Label) { l.MutWrite? || l.WriteUnique? || l.Consume? || l.CycInit? }

  /** Every access finds the data in place and the block not freed; a read happens after every
      write, and a write, a drop or a move happens after every access, through whatever handle. */
  lemma DataRaceFree(s: State, l: Label)
    requires Reachable(s) && Enabled(s, l) && (ReadsTheData(l) || WritesTheData(l))
    ensures s.freed == 0 && s.consumed == 0 && (if l.CycInit? then s.data.Uninit? else s.data.Whole?)
    ensures s.c.writes <= s.c.cur[l.t].ev
    ensures WritesTheData(l) ==> s.c.uses <= s.c.cur[l.t].ev
  {
    hide Inv;
    ReachableInv(s);
    var h := AccessRoot(s, l);
    AccessIsLive(s, l, h);
    RootKnowsWrites(s, h, l.t);
    if WritesTheData(l) { WriterKnowsUses(s, l, h); }
  }

  lemma AccessRoot(s: State, l: Label) returns (h: Hid)
    requires Inv(s) && Enabled(s, l) && (ReadsTheData(l) || WritesTheData(l))
    ensures Accessed(s, l, h)
  {
    hide Inv, Enabled, Accessed;
    h := if l.ReadData? then l.h else if l.WriteUnique? || l.CycInit? then l.b else AccessPc(s, l);
    if l.MutWrite? || l.Consume? || l.CloneData? {
      PcAccess(s, l);
    } else {
      RootAccess(s, l, h);
    }
  }

  /** The handle `l` reaches the data through, and what the place of its thread tells. */
  predicate Accessed(s: State, l: Label, h: Hid) {
    && l.t in s.c.cur && MayUse(s.c, Root(h), l.t)
    && (WritesTheData(l) ==> s.c.roots == map[h := {l.t}] && (l.MutWrite? ==> s.c.uses <= s.c.cur[l.t].ev))
    && (l.Consume? ==> s.c.phase == Held(l.t, true) && s.data.Whole?)
    && (l.CycInit? ==> s.c.phase.CyclicB? && s.data.Uninit?)
    && (l.WriteUnique? ==> s.c.phase.UniqueB?)
    && (!l.Consume? && !l.CycInit? ==> s.c.phase.Counted? || s.c.phase.UniqueB?)
  }

  function AccessPc(s: State, l: Label): Hid
  {
    if l.t in s.pc && (s.pc[l.t].Mut? || s.pc[l.t].Consuming? || s.pc[l.t].CloneOut?) then s.pc[l.t].h else 0
  }

  lemma PcAccess(s: State, l: Label)
    requires Inv(s) && Enabled(s, l) && (l.MutWrite? || l.Consume? || l.CloneData?)
    ensures Accessed(s, l, AccessPc(s, l))
  {
    hide CoreInv, Pcs, Frees, Datas, Bounds, News, Intos, NewestFacts;
    AtPc(s, l.t);
  }

  lemma RootAccess(s: State, l: Label, h: Hid)
    requires Inv(s) && Enabled(s, l)
    requires (l.ReadData? && h == l.h) || ((l.WriteUnique? || l.CycInit?) && h == l.b)
    ensures Accessed(s, l, h)
  {
    hide CoreInv, Pcs, Frees, Datas, Bounds, News, Intos;
    AtPc(s, l.t);
    if l.CycInit? { Data.NotYetInit(s, l.t, h); }
    if l.WriteUnique? || l.CycInit? { Data.LoneRoot(s.c, l.t, h); }
  }

  lemma AccessIsLive(s: State, l: Label, h: Hid)
    requires Inv(s) && MayUse(s.c, Root(h), l.t) && (s.data.Whole? || s.data.Uninit? || s.c.phase.Counted? || s.c.phase.UniqueB?)
    ensures s.freed == 0 && s.consumed == 0 && (s.c.phase.Counted? || s.c.phase.UniqueB? ==> s.data.Whole?)
  {
    hide CoreInv, Pcs, Bounds, News, Intos, NewestFacts;
    Newest(s.c);
    HandleCounts(s.c, Root(h), l.t);
  }

  lemma RootKnowsWrites(s: State, h: Hid, t: Tid)
    requires Inv(s) && MayUse(s.c, Root(h), t) && t in s.c.cur
    ensures s.c.writes <= s.c.cur[t].ev
  {
    hide Shape, Views, StrongOk, WeakOk, Seen, Cov, Holder, Local;
  }

  lemma WriterKnowsUses(s: State, l: Label, h: Hid)
    requires Inv(s) && s.c.roots == map[h := {l.t}] && l.t in s.c.cur
    requires l.MutWrite? ==> s.c.uses <= s.c.cur[l.t].ev
    requires l.Consume? ==> s.c.phase == Held(l.t, true)
    requires !l.MutWrite? && !l.Consume? ==> s.c.phase.UniqueB? || s.c.phase.CyclicB?
    ensures s.c.uses <= s.c.cur[l.t].ev
  {
    hide Views, StrongOk, WeakOk, Seen, Holder, Visible, Local;
    if l.Consume? {
      Strong.UsesKnown(s.c, l.t);
    } else if !l.MutWrite? {
      BuilderKnowsUses(s.c, l.t, h);
    }
  }

  /** Whoever alone uses the handle under construction has observed every access to the data. */
  lemma BuilderKnowsUses(c: Core, t: Tid, h: Hid)
    requires Shape(c) && Cov(c) && c.roots == map[h := {t}] && t in c.cur && (c.phase.UniqueB? || c.phase.CyclicB?)
    ensures c.uses <= c.cur[t].ev
  {
    forall e | e in c.uses ensures e in c.cur[t].ev {
      assert Covered(c, e);
      if u :| MayUse(c, c.src[e], u) && Knows(c, u, e) { assert u == t; }
    }
  }

  /** A successful `upgrade`, also one that follows `into_arc` or `new_cyclic`, gives an `Arc` to
      data that is in place, and every write to it happened before. */
  lemma UpgradeSeesTheData(s: State, t: Tid)
    requires Reachable(s) && Enabled(s, UpOk(t))
    ensures SeesData(s, Next(s, UpOk(t)), t)
  {
    hide Inv, Enabled, Next, NewestFacts, Reachable;
    ReachableInv(s);
    UpgradeKeeps(s, t);
    var d := Next(s, UpOk(t));
    UpOkResult(s, t);
    RootKnowsWrites(d, s.c.nextH, t);
    AccessIsLive(d, UpOk(t), s.c.nextH);
  }

  /** Thread `t` has the new `Arc`, to data in place, and has observed every write to it. */
  predicate SeesData(s: State, d: State, t: Tid) {
    MayUse(d.c, Root(s.c.nextH), t) && d.data.Whole? && t in d.c.cur && s.c.writes <= d.c.cur[t].ev
  }

  lemma UpOkResult(s: State, t: Tid)
    requires Inv(s) && Enabled(s, UpOk(t))
    ensures Upgraded(s, Next(s, UpOk(t)), t)
  {
    hide CoreInv, Pcs, Frees, Datas, Bounds, News, Intos, NewestFacts;
    AtPc(s, t);
    Strong.NotZero(s);
  }

  predicate Upgraded(s: State, d: State, t: Tid) {
    MayUse(d.c, Root(s.c.nextH), t) && t in d.c.cur && d.c.writes == s.c.writes && d.c.phase.Counted?
  }

  // ---- consumed once, freed once ----

  /** The data is dropped or moved out at most once, and the block freed at most once. */
  lemma OnceEach(s: State)
    requires Reachable(s)
    ensures s.consumed <= 1 && s.freed <= 1
    ensures s.consumed == 1 <==> s.data.Gone?
    ensures forall t, u :: t in s.pc && u in s.pc && FreePc(s.pc[t]) && FreePc(s.pc[u]) ==> t == u
  {
    hide CoreInv, Pcs, Bounds, News, Intos;
    ReachableInv(s);
  }

  /** The thread that frees the block has observed every event of the allocation: every access,
      the consumption of the data and every counter operation happened before the free. No handle
      is left, and the data is gone (or, if `new_cyclic` unwound, was never there). */
  lemma FreeIsLast(s: State, t: Tid)
    requires Reachable(s) && Enabled(s, Free(t))
    ensures s.freed == 0 && AllKnown(s.c, t) && s.c.roots == map[] && s.c.weaks == map[] && !s.data.Whole?
    ensures s.fromNew || Published(s.c) ==> s.consumed == 1
  {
    hide Inv, Reachable;
    ReachableInv(s);
    FreerKnows(s, t);
    AllReleased(s);
    CoreOfInv(s);
    EverythingReleased(s.c, t);
  }

  /** `strong` has been above 0: there has been an `Arc`. */
  ghost predicate Published(c: Core) { exists k :: 0 <= k < |c.strong| && c.strong[k].val > 0 }

  lemma PublishedIs(s: State)
    requires Inv(s)
    ensures Published(s.c) <==> s.c.phase.Counted? || Written(s.c)
  {
    hide Shape, Views, WeakOk, Seen, Cov, Holder, Visible, Local;
    Newest(s.c);
    if Written(s.c) {
      assert SStep(s.c.strong[0], s.c.strong[1]);
      assert s.c.strong[0].val > 0 || s.c.strong[1].val > 0;
    } else if s.c.phase.Counted? {
      assert |s.c.roots.Keys| == |s.c.roots| && LastS(s.c) == s.c.strong[0];
    } else {
      assert LastS(s.c).val == 0;
    }
  }

  /** At weak count 0 no handle of either kind is left. */
  lemma AllReleased(s: State)
    requires Inv(s) && LastW(s.c).val == 0
    ensures s.c.phase.Released? && s.c.roots == map[] && s.c.weaks == map[] && !s.data.Whole?
    ensures s.fromNew || Published(s.c) ==> s.consumed == 1
  {
    hide CoreInv, Pcs, Frees, Bounds;
    Newest(s.c);
    PublishedIs(s);
    assert |s.c.weaks.Keys| == 0;
  }

  lemma FreerKnows(s: State, t: Tid)
    requires Inv(s) && t in s.pc && t in s.c.cur && s.pc[t].Freeing?
    ensures |s.c.weak| > 0 && LastW(s.c).view.ev <= s.c.cur[t].ev && s.freed == 0 && LastW(s.c).val == 0
  {
    hide CoreInv, Frees, Datas, Bounds, News, Intos;
    assert PcOk(s, t);
  }

  lemma EverythingReleased(c: Core, t: Tid)
    requires CoreInv(c) && c.phase.Released? && c.weaks == map[] && c.roots == map[] && t in c.cur
    requires LastW(c).view.ev <= c.cur[t].ev
    ensures AllKnown(c, t)
  {
    hide Views, StrongOk, WeakOk, Seen, Holder, Visible;
    forall e | 0 <= e < |c.src| ensures e in c.cur[t].ev { assert Covered(c, e); }
  }

  /** After the free nothing touches the block again. */
  lemma NothingAfterFree(s: State, l: Label)
    requires Reachable(s) && s.freed > 0 && Enabled(s, l)
    ensures (forall v, t :: !MayUse(s.c, v, t)) && Next(s, l).c.src == s.c.src && Next(s, l).freed == 1
  {
    hide Inv, Reachable, Enabled, Next;
    ReachableInv(s);
    EnabledAt(s, l);
    FreedFacts(s, l.t);
    AllReleased(s);
    Silent(s, l);
  }

  lemma FreedFacts(s: State, t: Tid)
    requires Inv(s) && s.freed > 0 && t in s.pc
    ensures |s.c.weak| > 0 && LastW(s.c).val == 0 && s.freed == 1 && PcOk(s, t) && !FreePc(s.pc[t])
  {
    hide CoreInv, Datas, Bounds, News, Intos;
    assert PcOk(s, t);
  }

  /** Nothing leaks: once every handle is gone and every thread has finished its operation, the
      block has been freed and the data, if it was ever written, consumed: it always was when the
      allocation came from `Arc::new` or there has been an `Arc`. */
  lemma NoLeak(s: State)
    requires Reachable(s) && s.c.roots == map[] && s.c.weaks == map[]
    requires forall t :: t in s.pc ==> s.pc[t].Idle?
    ensures s.freed == 1 && !s.data.Whole? && (s.consumed == 1 <==> s.data.Gone?)
    ensures s.fromNew || Published(s.c) ==> s.consumed == 1
  {
    hide Inv, Reachable;
    ReachableInv(s);
    IdleFree(s);
    Unheld(s);
    AllReleased(s);
    OnceEach(s);
  }

  lemma Unheld(s: State)
    requires Inv(s) && s.c.roots == map[] && s.c.weaks == map[] && s.c.lock == None && !s.c.phase.Held?
    ensures |s.c.weak| > 0 && LastW(s.c).val == 0
    ensures s.freed == 1 || exists u :: u in s.pc && FreePc(s.pc[u])
  {
    hide CoreInv, Pcs, Bounds, Intos;
    Newest(s.c);
    assert |s.c.weaks.Keys| == 0 && |s.c.roots| == 0;
  }

  /** When every thread has finished, no one holds the lock and no one is giving up the data. */
  lemma IdleFree(s: State)
    requires Inv(s) && forall t :: t in s.pc ==> s.pc[t].Idle?
    ensures s.c.lock == None && !s.c.phase.Held?
  {
    hide CoreInv, Frees, Datas, Bounds, News, Intos;
    Newest(s.c);
    assert forall t :: t in s.pc ==> PcOk(s, t) && !LockPc(s.pc[t]) && !HeldPc(s.pc[t]);
    assert forall u :: s.c.lock == Some(u) ==> u in s.pc;
  }

  // ---- upgrade, weak_count, into_inner ----

  /** For an allocation from `Arc::new`: after `upgrade` returned `None` on a `Weak`, no later
      `upgrade` on it or on a clone made from it succeeds, whatever happens in between. */
  lemma NoneIsForever(s: State, w: Hid, ls: seq<Label>)
    requires Reachable(s) && s.fromNew && w in s.nones && Runs(s, ls)
    ensures w in After(s, ls).nones && CannotUpgrade(After(s, ls), w)
  {
    hide Inv, Next, Runs, After, Reachable;
    ReachableInv(s);
    RunKeeps(s, ls);
    NonesGrow(s, ls);
    var d := After(s, ls);
    forall t ensures !UpgradesBy(d, t, w) { NoneBlocks(d, t, w); }
  }

  /** Why: as long as a refused `Weak`, or one cloned from it, still exists, `strong` stands at 0,
      and not because of a construction under way, whatever happens in between. (Once all of them
      are gone, `make_mut` may put it back to 1.) */
  lemma ZeroStaysWhileRefused(s: State, ls: seq<Label>, w: Hid)
    requires Reachable(s) && s.fromNew && Runs(s, ls) && w in After(s, ls).nones && w in After(s, ls).c.weaks
    ensures |After(s, ls).c.strong| > 0 && LastS(After(s, ls).c).val == 0 && Over(After(s, ls).c.phase)
  {
    hide Inv, Next, Runs, After, Reachable;
    ReachableInv(s);
    RunKeeps(s, ls);
    NonesGrow(s, ls);
    RefusedIsZero(After(s, ls), w);
  }

  lemma RefusedIsZero(s: State, w: Hid)
    requires Inv(s) && s.fromNew && w in s.nones && w in s.c.weaks
    ensures |s.c.strong| > 0 && LastS(s.c).val == 0 && Over(s.c.phase)
  {
    hide CoreInv, Pcs, Frees, Datas, Bounds, Intos;
    Newest(s.c);
  }

  lemma NoneBlocks(s: State, t: Tid, w: Hid)
    requires Inv(s) && s.fromNew && w in s.nones
    ensures !UpgradesBy(s, t, w)
  {
    hide Inv, Next, Enabled;
    if UpgradesBy(s, t, w) {
      Strong.UpOkKeeps(s, t);
      assert false;
    }
  }

  /** `t` is about to get an `Arc` through `w`. */
  predicate UpgradesBy(s: State, t: Tid, w: Hid) { t in s.pc && s.pc[t].Up? && s.pc[t].w == w && Enabled(s, UpOk(t)) }

  ghost predicate CannotUpgrade(s: State, w: Hid) { forall t :: !UpgradesBy(s, t, w) }

  lemma {:induction false} NonesGrow(s: State, ls: seq<Label>)
    requires Runs(s, ls)
    ensures s.nones <= After(s, ls).nones && After(s, ls).fromNew == s.fromNew
    decreases |ls|
  {
    hide Enabled, Next;
    if ls != [] {
      NonesStep(s, ls[0]);
      NonesGrow(Next(s, ls[0]), ls[1..]);
    }
  }

  lemma NonesStep(s: State, l: Label)
    requires Enabled(s, l)
    ensures s.nones <= Next(s, l).nones && Next(s, l).fromNew == s.fromNew
  {
    hide Enabled, Next;
    StepEffect(s, l);
  }

  /** `upgrade` that reads 0, at first or on a retry, returns `None`; a clone of a `Weak` inherits it. */
  lemma NonesRecorded(s: State, l: Label)
    requires Enabled(s, l)
    ensures l.CloneWeak? && l.v.Wk? && l.v.h in s.nones ==> s.c.nextH in Next(s, l).nones
    ensures l.UpStart? && s.c.strong[l.k].val == 0 ==> l.w in Next(s, l).nones
    ensures l.UpRetry? && s.c.strong[l.k].val == 0 ==> s.pc[l.t].w in Next(s, l).nones
  {
    hide IncW, LoadS;
  }

  /** What `Weak::weak_count` returns is the number of `Weak` handles at its load of `weak` (or 0
      when it finds no strong handle): the subtraction of the implicit one is always right. */
  lemma WeakCountIsExact(s: State, t: Tid, k: nat)
    requires Reachable(s) && Enabled(s, CountEnd(t, k))
    ensures CountsRight(s, t, k) && Next(s, CountEnd(t, k)).counted.0 == Next(s, CountEnd(t, k)).counted.1
  {
    hide Inv, Reachable, Enabled, Next;
    ReachableInv(s);
    CountEndAt(s, t, k);
    CountingFacts(s, t);
    CountEndResult(s, t, k);
  }

  /** Having read a strong count above 0, `t` is right to take one off the weak count it read. */
  predicate CountsRight(s: State, t: Tid, k: nat) {
    t in s.pc && s.pc[t].Counting? && k < |s.c.strong| && (s.c.strong[k].val > 0 ==> s.pc[t].n == s.pc[t].truth + 1)
  }

  lemma CountEndAt(s: State, t: Tid, k: nat)
    requires Enabled(s, CountEnd(t, k))
    ensures At(s, t) && s.pc[t].Counting? && CanReadS(s, t, k)
  {
  }

  lemma CountEndResult(s: State, t: Tid, k: nat)
    requires Enabled(s, CountEnd(t, k)) && CountsRight(s, t, k)
    ensures Next(s, CountEnd(t, k)).counted.0 == Next(s, CountEnd(t, k)).counted.1
  {
    hide LoadS;
  }

  lemma CountingFacts(s: State, t: Tid)
    requires Inv(s) && t in s.pc && t in s.c.cur && s.pc[t].Counting?
    ensures |s.c.strong| > 0
    ensures s.pc[t].n == s.pc[t].truth + 1 || (LastS(s.c).val == 0 && s.c.cur[t].s == |s.c.strong| - 1)
  {
    hide CoreInv, Frees, Datas, Bounds, News, Intos;
    Newest(s.c);
    assert PcOk(s, t);
  }

  /** If strong handles are only ever given up by `into_inner`, then when every thread has finished
      exactly one call has returned the value if there has been an `Arc` and none is left, and no
      call otherwise. This holds for `Arc`s from `Arc::new`, `new_cyclic` and `UniqueArc` alike. */
  lemma IntoInnerReturnsOnce(s: State)
    requires Reachable(s) && s.intoOnly && forall t :: t in s.pc ==> s.pc[t].Idle?
    ensures s.returned == if Published(s.c) && !s.c.phase.Counted? then 1 else 0
  {
    hide Inv, Reachable, Published;
    ReachableInv(s);
    IdleFree(s);
    PublishedIs(s);
    ReleasedReturned(s);
  }

  lemma ReleasedReturned(s: State)
    requires Inv(s)
    ensures s.c.phase.UniqueB? || s.c.phase.CyclicB? ==> !Written(s.c)
    ensures s.intoOnly && s.c.phase.Released? && Written(s.c) ==> s.returned == 1
    ensures s.returned <= 1 && (s.returned == 1 ==> s.c.phase.Released? && Written(s.c) && s.data.Gone?)
  {
    hide CoreInv, Pcs, Frees, Bounds, Datas, News;
    Newest(s.c);
  }

  /** However the handles are used, at most one `into_inner` returns the value, and then the data
      has been moved out for it: no drop or other move can have happened. */
  lemma AtMostOneReturns(s: State)
    requires Reachable(s)
    ensures s.returned <= 1 && (s.returned == 1 ==> s.consumed == 1 && s.data.Gone?)
  {
    hide Inv, Reachable;
    ReachableInv(s);
    ReleasedReturned(s);
    OnceEach(s);
  }

  // ---- the plain stores ----

  /** Each plain store is made by a thread that has observed the newest write of the counter, so
      no other place in the modification order was open to it. */
  lemma StoresFollowTheNewest(s: State, l: Label)
    requires Reachable(s) && Enabled(s, l) && (l.UqUnlock? || l.RestoreStrong? || l.IntoArc?)
    ensures l.UqUnlock? ==> s.c.cur[l.t].w == |s.c.weak| - 1
    ensures !l.UqUnlock? ==> s.c.cur[l.t].s == |s.c.strong| - 1
  {
    hide Inv, Reachable;
    ReachableInv(s);
    StorerHolds(s, l);
    CoreOfInv(s);
    HolderIsNewest(s.c, l.t);
  }

  lemma StorerHolds(s: State, l: Label)
    requires Inv(s) && Enabled(s, l) && (l.UqUnlock? || l.RestoreStrong? || l.IntoArc?)
    ensures l.UqUnlock? ==> s.c.lock == Some(l.t)
    ensures l.RestoreStrong? ==> s.c.phase == Held(l.t, true)
    ensures l.IntoArc? ==> s.c.phase.UniqueB?
  {
    hide CoreInv, Frees, Datas, Bounds, News, Intos;
    assert PcOk(s, l.t);
  }

  lemma HolderIsNewest(c: Core, t: Tid)
    requires CoreInv(c) && t in c.cur
    ensures c.lock == Some(t) ==> c.cur[t].w == |c.weak| - 1
    ensures c.phase.UniqueB? || (c.phase.Held? && c.phase.t == t) ==> c.cur[t].s == |c.strong| - 1
  {
    hide StrongOk, WeakOk, Seen, Cov, Visible;
    assert Good(c, c.cur[t]);
  }
}
