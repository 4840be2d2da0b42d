/** The invariant of the whole program. */
module ArcInvariant {
  import opened Common
  import opened ArcState
  import opened ArcCore
  import opened ArcSteps

  predicate LockPc(p: Pc) { p.UqLocked? || p.UqLoaded? }

  predicate HeldPc(p: Pc) { p.Window? || p.Restore? || p.Fencing? || p.Consuming? || p.Releasing? }

  predicate FreePc(p: Pc) { p.FreeFencing? || p.Freeing? }

  /** Thread `t` has observed every event of the allocation. */
  predicate AllKnown(c: Core, t: Tid) { t in c.cur && forall e :: 0 <= e < |c.src| ==> e in c.cur[t].ev }

  /** `h` is the only handle of either kind, and only `t` uses it. */
  predicate Sole(c: Core, t: Tid, h: Hid) {
    c.phase.Counted? && c.roots == map[h := {t}] && c.weaks == map[] && c.lock == None
  }

  predicate HeldBy(s: State, t: Tid, h: Hid, fenced: bool) {
    s.c.phase == Held(t, fenced) && s.c.roots == map[h := {t}]
  }

  ghost predicate PcOk(s: State, t: Tid)
    requires Sane(s) && t in s.pc
  {
    var c, p := s.c, s.pc[t];
    && (LockPc(p) <==> c.lock == Some(t))
    && (HeldPc(p) <==> c.phase.Held? && c.phase.t == t)
    && (t in s.overS + s.overW ==> p.Aborting?)
    && PcFacts(s, t, p)
  }

  ghost predicate PcFacts(s: State, t: Tid, p: Pc)
    requires Sane(s) && t in s.pc
  {
    var c := s.c;
    match p
    case Down(h, n) => IsArc(s, t, h)
    case UqLocked(h, excl) => IsArc(s, t, h) && (excl ==> Owns(s, t, h))
    case UqLoaded(h, excl, uniq) => IsArc(s, t, h) && (excl ==> Owns(s, t, h))
                                 && (excl && uniq ==> c.roots == map[h := {t}] && AllKnown(c, t))
    case Mut(h) => Sole(c, t, h) && c.uses <= c.cur[t].ev
    case CloneOut(h) => c.phase.Counted? && Owns(s, t, h)
    case DropOld(h) => c.phase.Counted? && Owns(s, t, h)
    case Window(h) => HeldBy(s, t, h, true) && s.data.Whole?
    case Restore(h) => HeldBy(s, t, h, true) && s.data.Whole? && c.weaks == map[]
    case Fencing(h, _) => HeldBy(s, t, h, false) && s.data.Whole?
    case Consuming(h, _) => HeldBy(s, t, h, true) && s.data.Whole?
    case Releasing(h, _) => HeldBy(s, t, h, true) && s.data.Gone?
    case Up(w, n) => MayUse(c, Wk(w), t) && n > 0
    case Counting(w, n, truth) => MayUse(c, Wk(w), t)
                               && (n == truth + 1 || (n == truth && c.phase.Released? && c.cur[t].s == |c.strong| - 1))
    case FreeFencing => LastW(c).val == 0 && s.freed == 0 && Leq(LastW(c).view, Join(c.cur[t], c.acq[t]))
    case Freeing => LastW(c).val == 0 && s.freed == 0 && Leq(LastW(c).view, c.cur[t])
    case CycReady(b) => c.phase.CyclicB? && c.roots == map[b := {t}] && s.data.Whole?
    case _ => true
  }

  ghost predicate Pcs(s: State)
    requires Sane(s)
  {
    && (forall t :: t in s.pc ==> PcOk(s, t))
    && (s.c.phase.Held? ==> s.c.phase.t in s.pc)
    && s.overS <= s.pc.Keys && s.overW <= s.pc.Keys
  }

  /** One thread frees the block, once, exactly when the weak count has reached 0. */
  ghost predicate Frees(s: State)
    requires Sane(s)
  {
    && (forall t, u :: t in s.pc && u in s.pc && FreePc(s.pc[t]) && FreePc(s.pc[u]) ==> t == u)
    && (s.freed != 0 ==> s.freed == 1 && LastW(s.c).val == 0)
    && (LastW(s.c).val == 0 && s.freed == 0 ==> exists t :: t in s.pc && FreePc(s.pc[t]))
  }

  ghost predicate Datas(s: State)
    requires Sane(s)
  {
    && (s.c.phase.Counted? || s.c.phase.UniqueB? ==> s.data.Whole?)
    && (s.c.phase.Released? ==> !s.data.Whole?)
    && (s.c.phase.CyclicB? ==> !s.data.Gone? && (s.data.Whole? ==> exists t :: t in s.pc && s.pc[t].CycReady?))
    && s.consumed == (if s.data.Gone? then 1 else 0)
  }

  /** The counters stay below `MAX_REFCOUNT + 1` plus the threads about to abort. */
  ghost predicate Bounds(s: State)
    requires Sane(s)
  {
    && LastS(s.c).val <= MAX_REFCOUNT + 1 + |s.overS|
    && (!LastW(s.c).locked ==> LastW(s.c).val <= MAX_REFCOUNT + 1 + |s.overW|)
    && |s.pc.Keys| < USIZE_MAX - MAX_REFCOUNT - 1
  }

  /** Users of any handle have observed every write that put `strong` back from 0. */
  ghost predicate Revived(c: Core) {
    forall m, v, t :: 0 <= m < |c.strong| - 1 && c.strong[m].live == {} && MayUse(c, v, t) && t in c.cur ==> m < c.cur[t].s
  }

  ghost predicate News(s: State) {
    && (forall w :: w in s.nones ==> w < s.c.nextH)
    && (s.fromNew ==>
          && Revived(s.c) && !s.c.phase.UniqueB? && !s.c.phase.CyclicB?
          && (s.c.phase.Released? ==> s.data.Gone?)
          && (forall w :: w in s.nones && w in s.c.weaks ==> !s.c.phase.Counted?))
  }

  predicate IntoPc(p: Pc) { p.Window? || p.Restore? || (HeldPc(p) && p.kind == KInto) }

  /** `strong` has been written since the allocation was made. */
  predicate Written(c: Core) { |c.strong| > 1 }

  /** The keeper of a value that never was in an `Arc` came from the drop of a `UniqueArc`; that of
      any other, if only `into_inner` gives up handles, from `into_inner`. */
  predicate KeeperPc(s: State, p: Pc) {
    if Written(s.c) then s.intoOnly ==> IntoPc(p) else (p.Fencing? || p.Consuming? || p.Releasing?) && p.kind == KDrop
  }

  ghost predicate Intos(s: State) {
    && s.returned <= 1 && (s.returned == 1 ==> s.c.phase.Released? && Written(s.c))
    && (s.c.phase.Released? && Written(s.c) ==> s.data.Gone? && (s.intoOnly ==> s.returned == 1))
    && (s.c.phase.Held? && s.c.phase.t in s.pc ==> KeeperPc(s, s.pc[s.c.phase.t]))
    && s.counted.0 == s.counted.1
  }

  ghost predicate Local(s: State) {
    Sane(s) && Pcs(s) && Frees(s) && Datas(s) && Bounds(s) && News(s) && Intos(s)
  }

  ghost predicate Inv(s: State) { CoreInv(s.c) && Local(s) }

  // ---- the initial states satisfy it ----

  lemma StartInv(threads: set<Tid>, t: Tid, strong: nat, phase: Phase, data: Data, fromNew: bool)
    requires t in threads && |threads| < USIZE_MAX - MAX_REFCOUNT - 1
    requires (strong == 1 && phase.Counted? && data.Whole?) || (strong == 0 && phase.UniqueB? && data.Whole? && !fromNew)
          || (strong == 0 && phase.CyclicB? && data.Uninit? && !fromNew)
    ensures Inv(Start(threads, t, strong, phase, data, fromNew))
  {
    hide CoreInv, Local;
    StartCore(threads, t, strong, phase, data, fromNew);
    StartLocal(threads, t, strong, phase, data, fromNew);
  }

  lemma StartCore(threads: set<Tid>, t: Tid, strong: nat, phase: Phase, data: Data, fromNew: bool)
    requires t in threads
    requires (strong == 1 && phase.Counted?) || (strong == 0 && phase.UniqueB?) || (strong == 0 && phase.CyclicB?)
    ensures CoreInv(Start(threads, t, strong, phase, data, fromNew).c)
  {
    hide Shape, Views, StrongOk, WeakOk, Seen, Cov, Holder, Visible;
    var c := Start(threads, t, strong, phase, data, fromNew).c;
    StartShape(c, t);
    StartViews(c, t);
    StartCounts(c, t);
    StartRest(c, t);
  }

  ghost predicate JustMade(c: Core, t: Tid) {
    && |c.strong| == 1 && |c.weak| == 1 && c.strong[0].view == c.weak[0].view == View(0, 0, {})
    && c.strong[0].id == c.weak[0].id == 0 && c.src == [Root(0)] && c.lock == None && c.nextH == 1
    && c.roots == map[0 := {t}] && c.weaks == map[] && t in c.cur && c.cur.Keys == c.acq.Keys
    && c.weak[0].val == 1 && c.weak[0].live == {} && c.weak[0].implicit && !c.weak[0].locked
    && c.strong[0].val == |c.strong[0].live| && c.strong[0].live == Live(c)
    && !c.phase.Held? && !c.phase.Released? && c.writes == c.uses <= {0} && c.cur[t] == View(0, 0, {0})
    && (forall u :: u in c.cur && u != t ==> c.cur[u] == View(0, 0, {}))
    && (forall u :: u in c.acq ==> c.acq[u] == View(0, 0, {}))
  }

  lemma StartShape(c: Core, t: Tid)
    requires JustMade(c, t)
    ensures Shape(c)
  {
    assert |c.roots.Keys| == 1;
  }

  lemma StartViews(c: Core, t: Tid)
    requires JustMade(c, t)
    ensures Views(c)
  {
  }

  lemma StartCounts(c: Core, t: Tid)
    requires JustMade(c, t)
    ensures StrongOk(c) && WeakOk(c)
  {
  }

  lemma StartRest(c: Core, t: Tid)
    requires JustMade(c, t)
    ensures Seen(c) && Cov(c) && Holder(c) && Visible(c)
  {
    assert MayUse(c, Root(0), t) && Knows(c, t, 0);
    assert Covered(c, 0);
  }

  lemma StartLocal(threads: set<Tid>, t: Tid, strong: nat, phase: Phase, data: Data, fromNew: bool)
    requires t in threads && |threads| < USIZE_MAX - MAX_REFCOUNT - 1
    requires (strong == 1 && phase.Counted? && data.Whole?) || (strong == 0 && phase.UniqueB? && data.Whole? && !fromNew)
          || (strong == 0 && phase.CyclicB? && data.Uninit? && !fromNew)
    ensures Local(Start(threads, t, strong, phase, data, fromNew))
  {
    var s := Start(threads, t, strong, phase, data, fromNew);
    assert s.c.cur.Keys == threads && s.c.acq.Keys == threads && s.pc.Keys == threads;
  }
}
