/** What the protocol guarantees, in every reachable state of every interleaving. */
module ArcTheorems {
  import opened Common
  import opened ArcState
  import opened ArcCore
  import opened ArcSteps
  import opened ArcInvariant
  import opened ArcFrame
  import opened ArcQuietSteps
  import Loads = ArcLoadSteps
  import Data = ArcDataSteps
  import Strong = ArcStrongSteps
  import Weak = ArcWeakSteps

  // ---- runs ----

  ghost predicate Runs(s: State, ls: seq<Label>)
    decreases |ls|
  {
    ls == [] || (Enabled(s, ls[0]) && Runs(Next(s, ls[0]), ls[1..]))
  }

  ghost function After(s: State, ls: seq<Label>): State
    decreases |ls|
  {
    if ls == [] then s else After(Next(s, ls[0]), ls[1..])
  }

  lemma {:induction false} RunsSnoc(s: State, ls: seq<Label>, l: Label)
    requires Runs(s, ls) && Enabled(After(s, ls), l)
    ensures Runs(s, ls + [l]) && After(s, ls + [l]) == Next(After(s, ls), l)
    decreases |ls|
  {
    hide Enabled, Next;
    if ls == [] {
      assert (ls + [l])[1..] == [];
    } else {
      assert (ls + [l])[1..] == ls[1..] + [l];
      RunsSnoc(Next(s, ls[0]), ls[1..], l);
    }
  }

  lemma Extend(i: State, ls: seq<Label>, s: State, l: Label)
    requires RunsTo(i, ls, s) && Enabled(s, l)
    ensures RunsTo(i, ls + [l], Next(s, l))
  {
    hide Enabled, Next;
    RunsSnoc(i, ls, l);
  }

  lemma NoSteps(i: State)
    ensures RunsTo(i, [], i)
  {
  }

  lemma StepKeeps(s: State, l: Label)
    requires Inv(s) && Enabled(s, l)
    ensures Inv(Next(s, l))
  {
    hide Inv, Enabled, Next;
    match l {
      case Lend(t, u, v) => Weak.LendKeeps(s, t, u, v);
      case GiveBackTo(t, u, v) => Weak.GiveBackToKeeps(s, t, u, v);
      case Sync(t, u) => Loads.SyncKeeps(s, t, u);
      case PeekStrong(_, _, _) => Loads.PeekKeeps(s, l);
      case PeekWeak(_, _, _) => Loads.PeekKeeps(s, l);
      case Clone(t, h) => Strong.CloneKeeps(s, t, h);
      case Abort(t) => Loads.AbortKeeps(s, t);
      case DownStart(_, _, _) => Loads.DownLoadKeeps(s, l);
      case DownSpin(_, _) => Loads.DownLoadKeeps(s, l);
      case DownPanic(_) => Loads.LocalKeeps(s, l);
      case DownOk(t) => Weak.DownOkKeeps(s, t);
      case DownRetry(_, _) => Loads.DownLoadKeeps(s, l);
      case UqLock(t, h, excl) => Weak.UqLockKeeps(s, t, h, excl);
      case UqMiss(t, h, k) => Loads.UqMissKeeps(s, t, h, k);
      case UqLoad(t, k) => Loads.UqLoadKeeps(s, t, k);
      case UqUnlock(t) => Weak.UqUnlockKeeps(s, t);
      case ReadData(_, _) => Data.ReadKeeps(s, l);
      case MutWrite(t) => Data.MutWriteKeeps(s, t);
      case MutEnd(_) => Loads.LocalKeeps(s, l);
      case DropArc(t, h, into) => Strong.DropArcKeeps(s, t, h, into);
      case UnwrapOk(_, _) => Strong.TakeKeeps(s, l);
      case UnwrapMiss(t, h, k) => Loads.UnwrapMissKeeps(s, t, h, k);
      case MakeMutTake(_, _) => Strong.TakeKeeps(s, l);
      case MakeMutMiss(t, h, k) => Loads.MakeMutMissKeeps(s, t, h, k);
      case CloneData(_) => Data.ReadKeeps(s, l);
      case CloneUnwinds(_) => Loads.LocalKeeps(s, l);
      case WindowLoad(t, k) => Loads.WindowLoadKeeps(s, t, k);
      case RestoreStrong(t) => Strong.RestoreKeeps(s, t);
      case FenceStrong(t) => Data.FenceStrongKeeps(s, t);
      case Consume(t) => Data.ConsumeKeeps(s, t);
      case DropImplicitWeak(t) => Weak.DropImplicitWeakKeeps(s, t);
      case UpStart(_, _, _) => UpStartKeeps(s, l);
      case UpPanic(_) => Loads.LocalKeeps(s, l);
      case UpOk(t) => UpgradeKeeps(s, t);
      case UpRetry(_, _) => UpStartKeeps(s, l);
      case CloneWeak(t, v) => Weak.CloneWeakKeeps(s, t, v);
      case DropWeak(t, w) => Weak.DropWeakKeeps(s, t, w);
      case CountStart(t, w, k) => Loads.CountStartKeeps(s, t, w, k);
      case CountEnd(t, k) => Loads.CountEndKeeps(s, t, k);
      case FenceWeak(t) => Data.FenceWeakKeeps(s, t);
      case Free(t) => Data.FreeKeeps(s, t);
      case WriteUnique(t, b) => Data.WriteUniqueKeeps(s, t, b);
      case IntoArc(t, b) => Strong.IntoArcKeeps(s, t, b);
      case DropUnique(t, b) => Strong.DropUniqueKeeps(s, t, b);
      case CycInit(t, b) => Data.CycInitKeeps(s, t, b);
      case CycPublish(t) => Strong.CycPublishKeeps(s, t);
      case CycUnwinds(t, b) => Weak.CycUnwindsKeeps(s, t, b);
    }
  }

  lemma UpgradeKeeps(s: State, t: Tid)
    requires Inv(s) && Enabled(s, UpOk(t))
    ensures Inv(Next(s, UpOk(t)))
  {
    hide Inv, Next;
    Strong.UpOkKeeps(s, t);
  }

  lemma UpStartKeeps(s: State, l: Label)
    requires Inv(s) && Enabled(s, l) && (l.UpStart? || l.UpRetry?)
    ensures Inv(Next(s, l))
  {
    hide CoreInv, Pcs, Frees, Datas, Bounds, News, Intos, NewestFacts;
    AtPc(s, l.t);
    Loads.UpReadKeeps(s, l.t, if l.UpStart? then l.w else s.pc[l.t].w, l.k);
  }

  lemma {:induction false} RunKeeps(s: State, ls: seq<Label>)
    requires Inv(s) && Runs(s, ls)
    ensures Inv(After(s, ls))
    decreases |ls|
  {
    hide Inv, Enabled, Next;
    if ls != [] {
      StepKeeps(s, ls[0]);
      RunKeeps(Next(s, ls[0]), ls[1..]);
    }
  }

  /** A state of some run of an allocation made by `Arc::new`, `UniqueArc::new_in` or `new_cyclic_in`,
      with few enough threads for the counters not to wrap. */
  ghost predicate Reachable(s: State) {
    exists threads, t, ls :: ReachedBy(s, threads, t, ls)
  }

  predicate FewThreads(threads: set<Tid>) { |threads| < USIZE_MAX - MAX_REFCOUNT - 1 }

  ghost predicate ReachedBy(s: State, threads: set<Tid>, t: Tid, ls: seq<Label>) {
    t in threads && FewThreads(threads) && exists i :: i in Starts(threads, t) && RunsTo(i, ls, s)
  }

  function Starts(threads: set<Tid>, t: Tid): set<State> {
    {ArcNew(threads, t), UniqueNew(threads, t), CyclicNew(threads, t)}
  }

  ghost predicate RunsTo(i: State, ls: seq<Label>, s: State) { Runs(i, ls) && After(i, ls) == s }

  lemma ReachableInv(s: State)
    requires Reachable(s)
    ensures Inv(s)
  {
    hide Inv, Start, Runs, After;
    var threads, t, ls :| ReachedBy(s, threads, t, ls);
    var i :| i in Starts(threads, t) && RunsTo(i, ls, s);
    StartInv(threads, t, 1, Counted, Whole, true);
    StartInv(threads, t, 0, UniqueB, Whole, false);
    StartInv(threads, t, 0, CyclicB, Uninit, false);
    RunKeeps(i, ls);
  }

  // ---- the counts ----

  /** The implicit weak reference exists until the strong side has let go of it. */
  predicate Implicit(s: State) { !s.c.phase.Released? }

  /** `strong` is the number of `Arc` handles (0 under construction and while its last holder
      finishes); `weak`, unless locked, is the number of `Weak` handles plus the implicit one. */
  lemma CountsAreExact(s: State)
    requires Reachable(s)
    ensures |s.c.strong| > 0 && |s.c.weak| > 0
    ensures LastS(s.c).val == if s.c.phase.Counted? then |s.c.roots| else 0
    ensures s.c.lock == None ==> LastW(s.c).val == |s.c.weaks| + if Implicit(s) then 1 else 0
    ensures s.c.lock.Some? <==> LastW(s.c).val == USIZE_MAX
    ensures s.c.phase.Counted? <==> LastS(s.c).val > 0
  {
    hide CoreInv, Pcs, Frees, Datas, News, Intos;
    ReachableInv(s);
    Newest(s.c);
    Weak.WeakBound(s);
    assert |s.c.weaks.Keys| == |s.c.weaks| && |s.c.roots.Keys| == |s.c.roots|;
    assert s.c.phase.Counted? ==> |s.c.roots.Keys| > 0;
  }

  /** Neither counter wraps: each stays within `MAX_REFCOUNT + 1` plus the threads between an
      over-limit increment and its abort, so no increment of the program reaches the sentinel. */
  lemma CountersNeverWrap(s: State)
    requires Reachable(s)
    ensures Sane(s) && s.overS <= s.pc.Keys && s.overW <= s.pc.Keys
    ensures forall t :: t in s.overS + s.overW ==> s.pc[t].Aborting?
    ensures LastS(s.c).val <= MAX_REFCOUNT + 1 + |s.overS| < USIZE_MAX
    ensures s.c.lock == None ==> LastW(s.c).val <= MAX_REFCOUNT + 1 + |s.overW| < USIZE_MAX
  {
    hide CoreInv, Frees, Datas, News, Intos;
    ReachableInv(s);
    Newest(s.c);
    CardMono(s.overS, s.pc.Keys);
    CardMono(s.overW, s.pc.Keys);
    forall t | t in s.overS + s.overW ensures s.pc[t].Aborting? { assert PcOk(s, t); }
  }

  // ---- the weak lock ----

  /** While `weak` is locked no `Weak` handle exists, exactly one thread is inside `is_unique`, and
      no step of any other thread writes to `weak`: the unlocking store restores the exact count. */
  lemma LockIsExclusive(s: State, l: Label)
    requires Reachable(s) && s.c.lock.Some? && Enabled(s, l)
    ensures s.c.weaks == map[] && s.c.lock.value in s.pc && LockPc(s.pc[s.c.lock.value])
    ensures forall t :: t in s.pc && LockPc(s.pc[t]) ==> s.c.lock == Some(t)
    ensures l.t != s.c.lock.value ==> Next(s, l).c.weak == s.c.weak && Next(s, l).c.lock == s.c.lock
    ensures l.UqUnlock? ==> l.t == s.c.lock.value && LastW(Next(s, l).c).val == |Next(s, l).c.weaks| + 1
  {
    hide CoreInv, Frees, Datas, Bounds, News, Intos;
    ReachableInv(s);
    Newest(s.c);
    Weak.WeakBound(s);
    AtPc(s, l.t);
    AtPc(s, s.c.lock.value);
    forall t | t in s.pc && LockPc(s.pc[t]) ensures s.c.lock == Some(t) { assert PcOk(s, t); }
    LockedStep(s, l);
  }

  predicate WritesWeak(l: Label) {
    l.DownOk? || l.UqLock? || l.UqUnlock? || l.DropImplicitWeak? || l.CloneWeak? || l.DropWeak? || l.CycUnwinds?
  }

  lemma LockedStep(s: State, l: Label)
    requires Enabled(s, l) && PcOk(s, l.t) && s.c.lock.Some? && LastW(s.c).val == USIZE_MAX
    requires s.c.weaks == map[] && s.c.phase.Counted?
    ensures l.t != s.c.lock.value ==> Next(s, l).c.weak == s.c.weak && Next(s, l).c.lock == s.c.lock
    ensures l.UqUnlock? ==> l.t == s.c.lock.value && LastW(Next(s, l).c).val == |Next(s, l).c.weaks| + 1
  {
    hide Enabled, Next, PcOk, Grown, Beside;
    if WritesWeak(l) {
      OnlyUnlocks(s, l);
      Unlocks(s, l.t);
    } else {
      StepEffect(s, l);
    }
  }

  lemma OnlyUnlocks(s: State, l: Label)
    requires Enabled(s, l) && PcOk(s, l.t) && WritesWeak(l) && LastW(s.c).val == USIZE_MAX
    requires s.c.weaks == map[] && s.c.phase.Counted?
    ensures l.UqUnlock?
  {
  }

  lemma Unlocks(s: State, t: Tid)
    requires Enabled(s, UqUnlock(t)) && PcOk(s, t) && s.c.weaks == map[]
    ensures s.c.lock == Some(t) && LastW(Next(s, UqUnlock(t)).c).val == |Next(s, UqUnlock(t)).c.weaks| + 1
  {
  }

  // ---- what every step leaves alone ----

  /** What has happened stays so. */
  predicate Grows(a: State, b: State) {
    a.nones <= b.nones && a.consumed <= b.consumed && a.freed <= b.freed && a.returned <= b.returned
  }

  /** A step of `t` moves no other thread, and undoes nothing. */
  predicate Beside(s: State, d: State, t: Tid) {
    d.pc.Keys == s.pc.Keys && (forall u :: u in s.pc && u != t ==> d.pc[u] == s.pc[u]) && Grows(s, d) && d.fromNew == s.fromNew
  }

  /** At most one write was appended. */
  predicate Longer(a: seq<WEntry>, b: seq<WEntry>) { |a| <= |b| <= |a| + 1 && b[..|a|] == a }

  /** Writes are only added, observations only gained, and a new `Weak` has a new name. */
  predicate Grown(c: Core, d: Core) {
    && |c.strong| <= |d.strong| && d.strong[..|c.strong|] == c.strong && Longer(c.weak, d.weak)
    && (forall t :: t in c.cur && c.cur[t].s < |c.strong| && c.cur[t].w < |c.weak| ==>
          t in d.cur && c.cur[t].s <= d.cur[t].s && c.cur[t].w <= d.cur[t].w)
    && c.nextH <= d.nextH && forall w :: w in d.weaks ==> w in c.weaks || w == c.nextH
  }

  predicate Apart(c: Core, d: Core) { d.weak == c.weak && d.lock == c.lock }

  /** A thread took `strong` to 0, or dropped the `UniqueArc`. */
  predicate Over(p: Phase) { p.Held? || p.Released? }

  predicate Onto(p: Phase, q: Phase) { q == p || Over(q) }

  /** The steps that put `strong` above 0: the end of `make_mut`, `into_arc`, the end of `new_cyclic`. */
  predicate Revives(l: Label) { l.RestoreStrong? || l.IntoArc? || l.CycPublish? }

  lemma LoadsGrow(c: Core)
    ensures forall t, via, k, acquire ::
              t in c.cur && t in c.acq && 0 <= k < |c.strong| ==>
                var d := LoadS(c, t, via, k, acquire); Grown(c, d) && Apart(c, d) && d.phase == c.phase
    ensures forall t, via, k, acquire ::
              t in c.cur && t in c.acq && 0 <= k < |c.weak| ==>
                var d := LoadW(c, t, via, k, acquire); Grown(c, d) && Apart(c, d) && d.phase == c.phase
  {
  }

  lemma MovesGrow(c: Core)
    ensures forall t, v :: t in c.cur ==> var d := Learn(c, t, v); Grown(c, d) && Apart(c, d) && d.phase == c.phase
    ensures forall t :: t in c.cur && t in c.acq ==> var d := Fence(c, t); Grown(c, d) && Apart(c, d) && Onto(c.phase, d.phase)
    ensures forall t, h, write :: t in c.cur ==> var d := Use(c, t, h, write); Grown(c, d) && Apart(c, d) && d.phase == c.phase
  {
  }

  lemma HandsGrow(c: Core)
    ensures forall v, t, u :: MayUse(c, v, t) && t in c.cur && u in c.cur ==>
              var d := Share(c, v, t, u); Grown(c, d) && Apart(c, d) && d.phase == c.phase
    ensures forall v, t, u :: MayUse(c, v, t) && MayUse(c, v, u) && t != u && t in c.cur && u in c.cur ==>
              var d := GiveBack(c, v, t, u); Grown(c, d) && Apart(c, d) && d.phase == c.phase
  {
  }

  lemma StrongsGrow(c: Core)
    requires |c.strong| > 0
    ensures forall t, via, acquire :: t in c.cur && t in c.acq ==>
              var d := IncS(c, t, via, acquire); Grown(c, d) && Apart(c, d) && d.phase == c.phase
    ensures forall t, h, acquire, release :: t in c.cur && t in c.acq ==>
              var d := DecS(c, t, h, acquire, release); Grown(c, d) && Apart(c, d) && Onto(c.phase, d.phase)
  {
  }

  lemma RevivalsGrow(c: Core)
    requires |c.strong| > 0
    ensures forall t, h :: t in c.cur ==> var d := StoreOne(c, t, h); Grown(c, d) && Apart(c, d) && d.phase.Counted?
    ensures forall t, h :: t in c.cur && t in c.acq ==> var d := AddOne(c, t, h); Grown(c, d) && Apart(c, d) && d.phase.Counted?
    ensures forall t :: var d := TakeUnique(c, t); Grown(c, d) && Apart(c, d) && Over(d.phase)
  {
  }

  lemma WeaksGrow(c: Core)
    requires |c.weak| > 0
    ensures forall t, via, acquire :: t in c.cur && t in c.acq ==> var d := IncW(c, t, via, acquire); Grown(c, d) && d.phase == c.phase
    ensures forall t, w :: t in c.cur && t in c.acq ==> var d := DecW(c, t, w); Grown(c, d) && d.phase == c.phase
    ensures forall t, h :: t in c.cur && t in c.acq ==> var d := DropImplicit(c, t, h); Grown(c, d) && Over(d.phase)
  {
  }

  lemma LocksGrow(c: Core)
    requires |c.weak| > 0
    ensures forall t, h :: t in c.cur && t in c.acq ==> var d := LockW(c, t, h); Grown(c, d) && d.phase == c.phase
    ensures forall t, h :: t in c.cur ==> var d := UnlockW(c, t, h); Grown(c, d) && d.phase == c.phase
  {
  }

  lemma StaysGrown(c: Core)
    ensures Grown(c, c)
  {
  }

  predicate Effect(s: State, d: State, l: Label) {
    && Beside(s, d, l.t) && Grown(s.c, d.c) && (WritesWeak(l) || Apart(s.c, d.c))
    && (if Revives(l) then d.c.phase.Counted? else Onto(s.c.phase, d.c.phase))
  }

  predicate Loading(l: Label) {
    l.PeekStrong? || l.PeekWeak? || l.DownStart? || l.DownSpin? || l.DownRetry? || l.UqMiss? || l.UqLoad?
  }

  predicate Handing(l: Label) { l.Lend? || l.GiveBackTo? || l.Sync? }

  predicate Taking(l: Label) { l.DropArc? || l.UnwrapOk? || l.MakeMutTake? || l.RestoreStrong? }

  predicate Adding(l: Label) { l.UpOk? || l.IntoArc? || l.DropUnique? || l.CycPublish? }

  lemma LoadingEffect(s: State, l: Label)
    requires Sane(s) && At(s, l.t) && EnabledShared(s, l) && Loading(l)
    ensures Effect(s, NextShared(s, l), l)
  {
    hide LoadS, LoadW, Learn, Fence, Use, Share, GiveBack, IncS, DecS, StoreOne, AddOne, TakeUnique, IncW, DecW, DropImplicit, LockW, UnlockW, Grown;
    LoadsGrow(s.c);
  }

  lemma HandingEffect(s: State, l: Label)
    requires Sane(s) && At(s, l.t) && EnabledShared(s, l) && Handing(l)
    ensures Effect(s, NextShared(s, l), l)
  {
    hide LoadS, LoadW, Learn, Fence, Use, Share, GiveBack, IncS, DecS, StoreOne, AddOne, TakeUnique, IncW, DecW, DropImplicit, LockW, UnlockW, Grown;
    MovesGrow(s.c);
    HandsGrow(s.c);
  }

  lemma StandingEffect(s: State, l: Label)
    requires Sane(s) && At(s, l.t) && EnabledShared(s, l) && (l.Clone? || l.Abort? || l.DownPanic?)
    ensures Effect(s, NextShared(s, l), l)
  {
    hide LoadS, LoadW, Learn, Fence, Use, Share, GiveBack, IncS, DecS, StoreOne, AddOne, TakeUnique, IncW, DecW, DropImplicit, LockW, UnlockW, Grown;
    StrongsGrow(s.c);
    StaysGrown(s.c);
  }

  lemma SharedWeakEffect(s: State, l: Label)
    requires Sane(s) && At(s, l.t) && EnabledShared(s, l) && (l.DownOk? || l.UqLock? || l.UqUnlock?)
    ensures Effect(s, NextShared(s, l), l)
  {
    hide LoadS, LoadW, Learn, Fence, Use, Share, GiveBack, IncS, DecS, StoreOne, AddOne, TakeUnique, IncW, DecW, DropImplicit, LockW, UnlockW, Grown;
    WeaksGrow(s.c);
    LocksGrow(s.c);
  }

  lemma SharedEffect(s: State, l: Label)
    requires Sane(s) && At(s, l.t) && EnabledShared(s, l) && !OfOwner(l) && !Late(l)
    ensures Effect(s, NextShared(s, l), l)
  {
    hide EnabledShared, NextShared, Effect;
    if Loading(l) {
      LoadingEffect(s, l);
    } else if Handing(l) {
      HandingEffect(s, l);
    } else if WritesWeak(l) {
      SharedWeakEffect(s, l);
    } else {
      StandingEffect(s, l);
    }
  }

  lemma TakingEffect(s: State, l: Label)
    requires Sane(s) && At(s, l.t) && EnabledOwner(s, l) && Taking(l)
    ensures Effect(s, NextOwner(s, l), l)
  {
    hide LoadS, LoadW, Learn, Fence, Use, Share, GiveBack, IncS, DecS, StoreOne, AddOne, TakeUnique, IncW, DecW, DropImplicit, LockW, UnlockW, Grown;
    StrongsGrow(s.c);
    RevivalsGrow(s.c);
  }

  lemma OwnerLoadEffect(s: State, l: Label)
    requires Sane(s) && At(s, l.t) && EnabledOwner(s, l) && (l.UnwrapMiss? || l.MakeMutMiss? || l.WindowLoad?)
    ensures Effect(s, NextOwner(s, l), l)
  {
    hide LoadS, LoadW, Learn, Fence, Use, Share, GiveBack, IncS, DecS, StoreOne, AddOne, TakeUnique, IncW, DecW, DropImplicit, LockW, UnlockW, Grown;
    LoadsGrow(s.c);
  }

  lemma UsingEffect(s: State, l: Label)
    requires Sane(s) && At(s, l.t) && EnabledOwner(s, l) && (l.ReadData? || l.MutWrite? || l.MutEnd? || l.CloneData? || l.CloneUnwinds?)
    ensures Effect(s, NextOwner(s, l), l)
  {
    hide LoadS, LoadW, Learn, Fence, Use, Share, GiveBack, IncS, DecS, StoreOne, AddOne, TakeUnique, IncW, DecW, DropImplicit, LockW, UnlockW, Grown;
    MovesGrow(s.c);
    StaysGrown(s.c);
  }

  lemma OwnerEffect(s: State, l: Label)
    requires Sane(s) && At(s, l.t) && EnabledOwner(s, l) && OfOwner(l)
    ensures Effect(s, NextOwner(s, l), l)
  {
    hide EnabledOwner, NextOwner, Effect;
    if Taking(l) {
      TakingEffect(s, l);
    } else if l.UnwrapMiss? || l.MakeMutMiss? || l.WindowLoad? {
      OwnerLoadEffect(s, l);
    } else {
      UsingEffect(s, l);
    }
  }

  lemma UpLoadEffect(s: State, l: Label)
    requires Sane(s) && At(s, l.t) && EnabledLate(s, l) && (l.UpStart? || l.UpRetry?)
    ensures Effect(s, NextLate(s, l), l)
  {
    hide LoadS, LoadW, Learn, Fence, Use, Share, GiveBack, IncS, DecS, StoreOne, AddOne, TakeUnique, IncW, DecW, DropImplicit, LockW, UnlockW, Grown;
    LoadsGrow(s.c);
  }

  lemma CountLoadEffect(s: State, l: Label)
    requires Sane(s) && At(s, l.t) && EnabledLate(s, l) && (l.CountStart? || l.CountEnd?)
    ensures Effect(s, NextLate(s, l), l)
  {
    hide LoadS, LoadW, Learn, Fence, Use, Share, GiveBack, IncS, DecS, StoreOne, AddOne, TakeUnique, IncW, DecW, DropImplicit, LockW, UnlockW, Grown;
    LoadsGrow(s.c);
  }

  lemma AddingEffect(s: State, l: Label)
    requires Sane(s) && At(s, l.t) && EnabledLate(s, l) && Adding(l)
    ensures Effect(s, NextLate(s, l), l)
  {
    hide LoadS, LoadW, Learn, Fence, Use, Share, GiveBack, IncS, DecS, StoreOne, AddOne, TakeUnique, IncW, DecW, DropImplicit, LockW, UnlockW, Grown;
    StrongsGrow(s.c);
    RevivalsGrow(s.c);
  }

  lemma LateWeakEffect(s: State, l: Label)
    requires Sane(s) && At(s, l.t) && EnabledLate(s, l) && WritesWeak(l)
    ensures Effect(s, NextLate(s, l), l)
  {
    hide LoadS, LoadW, Learn, Fence, Use, Share, GiveBack, IncS, DecS, StoreOne, AddOne, TakeUnique, IncW, DecW, DropImplicit, LockW, UnlockW, Grown;
    WeaksGrow(s.c);
  }

  lemma LateUseEffect(s: State, l: Label)
    requires Sane(s) && At(s, l.t) && EnabledLate(s, l) && (l.Consume? || l.WriteUnique? || l.CycInit?)
    ensures Effect(s, NextLate(s, l), l)
  {
    hide LoadS, LoadW, Learn, Fence, Use, Share, GiveBack, IncS, DecS, StoreOne, AddOne, TakeUnique, IncW, DecW, DropImplicit, LockW, UnlockW, Grown;
    MovesGrow(s.c);
  }

  lemma EndingEffect(s: State, l: Label)
    requires Sane(s) && At(s, l.t) && EnabledLate(s, l) && (l.FenceStrong? || l.FenceWeak? || l.Free? || l.UpPanic?)
    ensures Effect(s, NextLate(s, l), l)
  {
    hide LoadS, LoadW, Learn, Fence, Use, Share, GiveBack, IncS, DecS, StoreOne, AddOne, TakeUnique, IncW, DecW, DropImplicit, LockW, UnlockW, Grown;
    MovesGrow(s.c);
    StaysGrown(s.c);
  }

  lemma LateEffect(s: State, l: Label)
    requires Sane(s) && At(s, l.t) && EnabledLate(s, l) && Late(l)
    ensures Effect(s, NextLate(s, l), l)
  {
    hide EnabledLate, NextLate, Effect;
    if l.UpStart? || l.UpRetry? {
      UpLoadEffect(s, l);
    } else if l.CountStart? || l.CountEnd? {
      CountLoadEffect(s, l);
    } else if Adding(l) {
      AddingEffect(s, l);
    } else if WritesWeak(l) {
      LateWeakEffect(s, l);
    } else if l.Consume? || l.WriteUnique? || l.CycInit? {
      LateUseEffect(s, l);
    } else {
      EndingEffect(s, l);
    }
  }

  lemma StepEffect(s: State, l: Label)
    requires Enabled(s, l)
    ensures Effect(s, Next(s, l), l)
  {
    hide EnabledShared, NextShared, EnabledOwner, NextOwner, EnabledLate, NextLate, Effect;
    if OfOwner(l) {
      OwnerEffect(s, l);
    } else if Late(l) {
      LateEffect(s, l);
    } else {
      SharedEffect(s, l);
    }
  }

  /** No step takes back a write to `weak`, and none makes more than one. */
  lemma WeakGrows(s: State, l: Label)
    requires Enabled(s, l)
    ensures Longer(s.c.weak, Next(s, l).c.weak)
  {
    hide Enabled, Next, Beside;
    StepEffect(s, l);
  }

  /** Only a locking write ever carries the sentinel. */
  ghost predicate SentinelLocks(s: State) {
    forall k :: 0 <= k < |s.c.weak| && s.c.weak[k].val == USIZE_MAX ==> s.c.weak[k].locked
  }

  lemma SentinelStep(s: State, l: Label)
    requires Inv(s) && SentinelLocks(s) && Enabled(s, l)
    ensures SentinelLocks(Next(s, l))
  {
    hide Inv, Enabled, Next;
    var d := Next(s, l);
    StepKeeps(s, l);
    WeakGrows(s, l);
    Weak.WeakBound(d);
    forall k | 0 <= k < |d.c.weak| && d.c.weak[k].val == USIZE_MAX ensures d.c.weak[k].locked {
      if k < |s.c.weak| { assert d.c.weak[..|s.c.weak|][k] == s.c.weak[k]; }
    }
  }

  lemma {:induction false} SentinelRun(s: State, ls: seq<Label>)
    requires Inv(s) && SentinelLocks(s) && Runs(s, ls)
    ensures SentinelLocks(After(s, ls))
    decreases |ls|
  {
    hide Inv, Enabled, Next, SentinelLocks;
    if ls != [] {
      StepKeeps(s, ls[0]);
      SentinelStep(s, ls[0]);
      SentinelRun(Next(s, ls[0]), ls[1..]);
    }
  }

  lemma ReachableSentinel(s: State)
    requires Reachable(s)
    ensures SentinelLocks(s)
  {
    hide Inv, Runs, After;
    var threads, t, ls :| ReachedBy(s, threads, t, ls);
    var i :| i in Starts(threads, t) && RunsTo(i, ls, s);
    StartInv(threads, t, 1, Counted, Whole, true);
    StartInv(threads, t, 0, UniqueB, Whole, false);
    StartInv(threads, t, 0, CyclicB, Uninit, false);
    SentinelRun(i, ls);
  }

  /** `make_mut`'s relaxed load, and `Weak::weak_count`, never read the sentinel, however stale. */
  lemma SentinelIsNeverRead(s: State, l: Label)
    requires Reachable(s) && Enabled(s, l) && (l.WindowLoad? || l.CountStart?)
    ensures CanReadW(s, l.t, l.k) && s.c.weak[l.k].val != USIZE_MAX && s.c.weak[l.k].val > 0
  {
    hide Inv, Reachable, SentinelLocks, Enabled;
    ReachableInv(s);
    ReachableSentinel(s);
    CoreOfInv(s);
    if l.WindowLoad? {
      WindowLoadAt(s, l.t, l.k);
      WindowHeld(s, l.t);
      WindowReads(s.c, l.t, l.k);
    } else {
      CountLoadAt(s, l.t, l.w, l.k);
      WeakReads(s.c, l.w, l.t, l.k);
    }
    UnlockedIsNot(s, l.k);
  }

  lemma WindowLoadAt(s: State, t: Tid, k: nat)
    requires Enabled(s, WindowLoad(t, k))
    ensures At(s, t) && s.pc[t].Window? && CanReadW(s, t, k)
  {
  }

  lemma CountLoadAt(s: State, t: Tid, w: Hid, k: nat)
    requires Enabled(s, CountStart(t, w, k))
    ensures At(s, t) && MayUse(s.c, Wk(w), t) && CanReadW(s, t, k)
  {
  }

  lemma CoreOfInv(s: State)
    requires Inv(s)
    ensures CoreInv(s.c) && Sane(s)
  {
    hide CoreInv, Pcs, Frees, Datas, Bounds, News, Intos;
  }

  lemma UnlockedIsNot(s: State, k: nat)
    requires SentinelLocks(s) && k < |s.c.weak| && !s.c.weak[k].locked
    ensures s.c.weak[k].val != USIZE_MAX
  {
  }

  lemma WindowHeld(s: State, t: Tid)
    requires Inv(s) && t in s.pc && s.pc[t].Window?
    ensures CoreInv(s.c) && s.c.phase == Held(t, true)
  {
    hide CoreInv, Frees, Datas, Bounds, News, Intos;
    assert PcOk(s, t);
  }

  lemma WindowReads(c: Core, t: Tid, k: nat)
    requires CoreInv(c) && c.phase == Held(t, true) && c.cur[t].w <= k < |c.weak|
    ensures !c.weak[k].locked && c.weak[k].val > 0
  {
    hide Shape, Views, StrongOk, Seen, Cov, Holder, Visible;
    WindowLoadIsExact(c, t, k);
    assert WVal(c.weak[k]);
  }

  lemma WeakReads(c: Core, w: Hid, t: Tid, k: nat)
    requires CoreInv(c) && MayUse(c, Wk(w), t) && t in c.cur && c.cur[t].w <= k < |c.weak|
    ensures !c.weak[k].locked && c.weak[k].val > 0
  {
    hide Shape, Views, StrongOk, WeakOk, Seen, Cov, Holder, Visible;
    WeakUserLoad(c, w, t, k);
  }
}
