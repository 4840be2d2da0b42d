/** When a lone handle is recognised as one. The checks behind `get_mut`, `make_mut` and `try_unwrap`
    may read stale values; this says exactly when they cannot. */
module ArcLone {
  import opened Common
  import opened ArcState
  import opened ArcCore
  import opened ArcSteps
  import opened ArcInvariant
  import opened ArcFrame
  import opened ArcTheorems
  import opened ArcGuarantees
  import opened ArcCalls
  import opened ArcCode

  // ---- what the thread must have observed ----

  predicate NewestS(c: Core, n: nat) { n + 1 == |c.strong| }

  predicate NewestW(c: Core, n: nat) { n + 1 == |c.weak| }

  /** `t` has observed the newest write of `weak`, and the newest of `strong` itself or by acquiring
      what that write of `weak` passes on. */
  predicate GetMutSees(c: Core, t: Tid)
    requires t in c.cur && |c.weak| > 0
  {
    NewestW(c, c.cur[t].w) && NewestS(c, Max(c.cur[t].s, LastW(c).view.s))
  }

  /** The same with the counters exchanged: `make_mut` looks at `strong` first. */
  predicate MakeMutSees(c: Core, t: Tid)
    requires t in c.cur && |c.strong| > 0
  {
    NewestS(c, c.cur[t].s) && NewestW(c, Max(c.cur[t].w, LastS(c).view.w))
  }

  predicate UnwrapSees(c: Core, t: Tid)
    requires t in c.cur
  {
    NewestS(c, c.cur[t].s)
  }

  /** Every write that is still to be read holds 1. */
  ghost predicate SureS(c: Core, from: nat) { forall k :: from <= k < |c.strong| ==> c.strong[k].val == 1 }

  ghost predicate SureW(c: Core, from: nat) { forall k :: from <= k < |c.weak| ==> c.weak[k].val == 1 }

  /** No write repeats the value before it, so only the newest can stand alone at 1. */
  lemma SureIsNewestS(c: Core, from: nat)
    requires StrongOk(c) && from < |c.strong| && LastS(c).val == 1
    ensures SureS(c, from) <==> NewestS(c, from)
  {
    if from + 1 < |c.strong| { assert SStep(c.strong[from], c.strong[from + 1]); }
  }

  lemma SureIsNewestW(c: Core, from: nat)
    requires WeakOk(c) && from < |c.weak| && LastW(c).val == 1
    ensures SureW(c, from) <==> NewestW(c, from)
  {
    if from + 1 < |c.weak| { assert WStep(c.weak[from], c.weak[from + 1]); }
  }

  // ---- other threads leave a lone handle alone ----

  /** Only `t` can use the allocation, and only through `h`. */
  predicate Lone(s: State, t: Tid, h: Hid) {
    t in s.pc && t in s.c.cur && s.c.roots == map[h := {t}] && s.c.weaks == map[]
  }

  /** Nothing but what the threads have observed changed. */
  predicate Untouched(s: State, d: State, t: Tid) {
    && t in s.pc && t in s.c.cur && t in d.c.cur && Leq(s.c.cur[t], d.c.cur[t]) && IsAt(d, t, s.pc[t])
    && d.c.strong == s.c.strong && d.c.weak == s.c.weak && d.c.roots == s.c.roots && d.c.weaks == s.c.weaks
    && d.c.lock == s.c.lock && d.c.phase == s.c.phase
  }

  lemma StrangerStep(s: State, l: Label, t: Tid, h: Hid)
    requires Inv(s) && Enabled(s, l) && l.t != t && Lone(s, t, h) && (s.c.phase.Held? ==> s.c.phase.t == t)
    ensures Untouched(s, Next(s, l), t)
  {
    hide Inv, Enabled, Next, NoHandle, Untouched, PcOk;
    EnabledAt(s, l);
    PlaceOk(s, l.t);
    LoneExcludes(s, t, h, l.t);
    Stranded(s, l.t);
    SilentLabels(s, l);
    StrangerEffect(s, l, t);
  }

  lemma PlaceOk(s: State, t: Tid)
    requires Inv(s) && t in s.pc
    ensures Sane(s) && PcOk(s, t)
  {
    hide CoreInv, Frees, Datas, Bounds, News, Intos, PcOk;
  }

  lemma LoneExcludes(s: State, t: Tid, h: Hid, u: Tid)
    requires Lone(s, t, h) && u != t
    ensures NoHandle(s.c, u)
  {
  }

  lemma StrangerEffect(s: State, l: Label, t: Tid)
    requires Enabled(s, l) && l.t != t && (l.Sync? || l.Abort? || l.FenceWeak? || l.Free?)
    requires t in s.pc && t in s.c.cur && (s.c.phase.Held? ==> s.c.phase.t == t)
    ensures Untouched(s, Next(s, l), t)
  {
    hide NextOwner, EnabledOwner;
    if Late(l) {
      hide NextShared, EnabledShared;
      assert l.FenceWeak? || l.Free?;
    } else {
      hide NextLate, EnabledLate;
      assert l.Sync? || l.Abort?;
    }
  }

  // ---- a call that cannot fail ----

  /** `t` is on its way to `goal`, with the steps `own` of the call still to take. */
  ghost predicate OnTrack(s: State, t: Tid, h: Hid, own: seq<Label>, goal: Pc) {
    t in s.pc && match s.pc[t]
    case Idle => Lone(s, t, h) && s.c.phase.Counted? && ReadyToCall(s.c, t, h, own, goal)
    case UqLocked(g, excl) => Lone(s, t, h) && s.c.phase.Counted? && g == h && excl && goal == Mut(h)
                              && SureS(s.c, s.c.cur[t].s)
                              && |own| == 2 && own[0].UqLoad? && own[0].t == t && own[1] == UqUnlock(t)
    case UqLoaded(g, excl, uniq) => Lone(s, t, h) && s.c.phase.Counted? && g == h && excl && uniq && goal == Mut(h)
                                    && own == [UqUnlock(t)]
    case Window(g) => Lone(s, t, h) && s.c.phase == Held(t, true) && g == h && goal == Restore(h)
                      && SureW(s.c, s.c.cur[t].w) && |own| == 1 && own[0].WindowLoad? && own[0].t == t
    case p => own == [] && p == goal
  }

  ghost predicate ReadyToCall(c: Core, t: Tid, h: Hid, own: seq<Label>, goal: Pc)
    requires t in c.cur
  {
    && |c.strong| > 0 && |c.weak| > 0
    && ((goal == Mut(h) && GetMutCall(own, t, h) && SureW(c, c.cur[t].w) && SureS(c, Max(c.cur[t].s, LastW(c).view.s)))
        || (goal == Restore(h) && MakeMutCall(own, t, h)
            && SureS(c, c.cur[t].s) && SureW(c, Max(c.cur[t].w, LastS(c).view.w)))
        || (goal == Fencing(h, KUnwrap) && UnwrapCall(own, t, h) && SureS(c, c.cur[t].s)))
  }

  lemma OthersKeepTrack(s: State, l: Label, t: Tid, h: Hid, own: seq<Label>, goal: Pc)
    requires Inv(s) && Enabled(s, l) && l.t != t && OnTrack(s, t, h, own, goal)
    ensures OnTrack(Next(s, l), t, h, own, goal)
  {
    hide Inv, Enabled, Next, OnTrack;
    if Underway(s, t) {
      TrackIsLone(s, t, h, own, goal);
      StrangerStep(s, l, t, h);
      UntouchedTrack(s, Next(s, l), t, h, own, goal);
    } else {
      StepEffect(s, l);
      TrackedAt(s, t, h, own, goal);
      ArrivedTrack(s, Next(s, l), t, h, own, goal);
    }
  }

  predicate Underway(s: State, t: Tid) {
    t in s.pc && (s.pc[t].Idle? || s.pc[t].UqLocked? || s.pc[t].UqLoaded? || s.pc[t].Window?)
  }

  lemma TrackedAt(s: State, t: Tid, h: Hid, own: seq<Label>, goal: Pc)
    requires OnTrack(s, t, h, own, goal)
    ensures t in s.pc
  {
    hide ReadyToCall, Lone;
  }

  lemma TrackIsLone(s: State, t: Tid, h: Hid, own: seq<Label>, goal: Pc)
    requires OnTrack(s, t, h, own, goal) && Underway(s, t)
    ensures Lone(s, t, h) && (s.c.phase.Held? ==> s.c.phase.t == t)
  {
    hide ReadyToCall, Lone;
  }

  lemma ArrivedTrack(s: State, d: State, t: Tid, h: Hid, own: seq<Label>, goal: Pc)
    requires OnTrack(s, t, h, own, goal) && !Underway(s, t) && IsAt(d, t, s.pc[t])
    ensures OnTrack(d, t, h, own, goal)
  {
    hide ReadyToCall, Lone;
  }

  lemma UntouchedTrack(s: State, d: State, t: Tid, h: Hid, own: seq<Label>, goal: Pc)
    requires OnTrack(s, t, h, own, goal) && Underway(s, t) && Lone(s, t, h) && Untouched(s, d, t)
    ensures OnTrack(d, t, h, own, goal)
  {
    hide GetMutCall, MakeMutCall, UnwrapCall, SureS, SureW;
    var c := s.c;
    SureLater(c, d.c, c.cur[t].s, d.c.cur[t].s);
    SureLater(c, d.c, c.cur[t].w, d.c.cur[t].w);
    if |c.weak| > 0 && |c.strong| > 0 {
      SureLater(c, d.c, Max(c.cur[t].s, LastW(c).view.s), Max(d.c.cur[t].s, LastW(c).view.s));
      SureLater(c, d.c, Max(c.cur[t].w, LastS(c).view.w), Max(d.c.cur[t].w, LastS(c).view.w));
    }
  }

  lemma SureLater(c: Core, d: Core, from: nat, later: nat)
    requires d.strong == c.strong && d.weak == c.weak && from <= later
    ensures (SureS(c, from) ==> SureS(d, later)) && (SureW(c, from) ==> SureW(d, later))
  {
  }

  lemma OwnKeepsTrack(s: State, l: Label, t: Tid, h: Hid, own: seq<Label>, goal: Pc)
    requires Enabled(s, l) && l.t == t && OnTrack(s, t, h, own, goal) && own != [] && own[0] == l
    ensures OnTrack(Next(s, l), t, h, own[1..], goal)
  {
    hide Enabled, Next, OnTrack;
    OwnLabels(s, l, t, h, own, goal);
    if OfOwner(l) {
      OwnerKeepsTrack(s, l, t, h, own, goal);
    } else {
      SharedKeepsTrack(s, l, t, h, own, goal);
    }
  }

  predicate GetMutStep(l: Label) { l.UqMiss? || l.UqLock? || l.UqLoad? || l.UqUnlock? }

  predicate OwnerStep(l: Label) { l.MakeMutMiss? || l.MakeMutTake? || l.WindowLoad? || l.UnwrapMiss? || l.UnwrapOk? }

  lemma OwnLabels(s: State, l: Label, t: Tid, h: Hid, own: seq<Label>, goal: Pc)
    requires OnTrack(s, t, h, own, goal) && own != [] && own[0] == l
    ensures Underway(s, t) && (GetMutStep(l) || OwnerStep(l))
  {
    hide SureS, SureW, Lone;
  }

  lemma SharedKeepsTrack(s: State, l: Label, t: Tid, h: Hid, own: seq<Label>, goal: Pc)
    requires Enabled(s, l) && l.t == t && OnTrack(s, t, h, own, goal) && own != [] && own[0] == l && GetMutStep(l)
    ensures OnTrack(Next(s, l), t, h, own[1..], goal)
  {
    hide Enabled, Next, OnTrack;
    if l.UqMiss? || l.UqLock? {
      LockKeepsTrack(s, l, t, h, own, goal);
    } else {
      UniqueKeepsTrack(s, l, t, h, own, goal);
    }
  }

  lemma LockKeepsTrack(s: State, l: Label, t: Tid, h: Hid, own: seq<Label>, goal: Pc)
    requires Enabled(s, l) && l.t == t && OnTrack(s, t, h, own, goal) && own != [] && own[0] == l && (l.UqMiss? || l.UqLock?)
    ensures OnTrack(Next(s, l), t, h, own[1..], goal)
  {
    hide NextOwner, NextLate, EnabledOwner, EnabledLate, Leq;
  }

  lemma UniqueKeepsTrack(s: State, l: Label, t: Tid, h: Hid, own: seq<Label>, goal: Pc)
    requires Enabled(s, l) && l.t == t && OnTrack(s, t, h, own, goal) && own != [] && own[0] == l && (l.UqLoad? || l.UqUnlock?)
    ensures OnTrack(Next(s, l), t, h, own[1..], goal)
  {
    hide NextOwner, NextLate, EnabledOwner, EnabledLate, Leq;
  }

  lemma OwnerKeepsTrack(s: State, l: Label, t: Tid, h: Hid, own: seq<Label>, goal: Pc)
    requires Enabled(s, l) && l.t == t && OnTrack(s, t, h, own, goal) && own != [] && own[0] == l && OwnerStep(l)
    ensures OnTrack(Next(s, l), t, h, own[1..], goal)
  {
    hide NextShared, NextLate, EnabledShared, EnabledLate, Leq;
  }

  lemma {:induction false} TrackArrives(s: State, ls: seq<Label>, t: Tid, h: Hid, goal: Pc)
    requires Inv(s) && Runs(s, ls) && OnTrack(s, t, h, Own(ls, t), goal)
    ensures OnTrack(After(s, ls), t, h, [], goal)
    decreases |ls|
  {
    hide Inv, Enabled, Next, OnTrack;
    if ls != [] {
      var l := ls[0];
      StepKeeps(s, l);
      if l.t == t {
        OwnKeepsTrack(s, l, t, h, Own(ls, t), goal);
        assert Own(ls, t)[1..] == Own(ls[1..], t);
      } else {
        OthersKeepTrack(s, l, t, h, Own(ls, t), goal);
        assert Own(ls, t) == Own(ls[1..], t);
      }
      TrackArrives(Next(s, l), ls[1..], t, h, goal);
    }
  }

  lemma Arrived(s: State, t: Tid, h: Hid, goal: Pc)
    requires OnTrack(s, t, h, [], goal)
    ensures IsAt(s, t, goal)
  {
    hide SureS, SureW, Lone;
  }

  // ---- calls that nobody interrupts ----

  lemma One(s: State, a: Label)
    requires Enabled(s, a)
    ensures Runs(s, [a]) && After(s, [a]) == Next(s, a)
  {
    hide Enabled, Next;
    NoSteps(s);
    Extend(s, [], s, a);
    assert [] + [a] == [a];
  }

  lemma Two(s: State, a: Label, b: Label)
    requires Enabled(s, a) && Enabled(Next(s, a), b)
    ensures Runs(s, [a, b]) && After(s, [a, b]) == Next(Next(s, a), b)
  {
    hide Enabled, Next;
    One(s, a);
    Extend(s, [a], Next(s, a), b);
    assert [a] + [b] == [a, b];
  }

  lemma Three(s: State, a: Label, b: Label, c: Label)
    requires Enabled(s, a) && Enabled(Next(s, a), b) && Enabled(Next(Next(s, a), b), c)
    ensures Runs(s, [a, b, c]) && After(s, [a, b, c]) == Next(Next(Next(s, a), b), c)
  {
    hide Enabled, Next;
    Two(s, a, b);
    Extend(s, [a, b], Next(Next(s, a), b), c);
    assert [a, b] + [c] == [a, b, c];
  }

  lemma {:induction false} AllOwn(ls: seq<Label>, t: Tid)
    requires forall i :: 0 <= i < |ls| ==> ls[i].t == t
    ensures Own(ls, t) == ls
  {
    if ls != [] { AllOwn(ls[1..], t); }
  }

  /** The lone handle's owner, about to call. */
  predicate Calls(s: State, t: Tid, h: Hid) { Sane(s) && !s.aborted && IdleAt(s, t) && Sole(s.c, t, h) }

  /** At `p`, and able to take another step. */
  predicate Ready(s: State, t: Tid, p: Pc) { Sane(s) && !s.aborted && At(s, t) && s.pc[t] == p }

  function GetMutSteps(t: Tid, h: Hid, k: nat): seq<Label> { [UqLock(t, h, true), UqLoad(t, k), UqUnlock(t)] }

  /** `get_mut` that finds `weak` at 1 and reads write `k` of `strong`. */
  lemma GetMutRun(s: State, t: Tid, h: Hid, k: nat)
    requires Calls(s, t, h) && LastW(s.c).val == 1 && Max(s.c.cur[t].s, LastW(s.c).view.s) <= k < |s.c.strong|
    ensures Runs(s, GetMutSteps(t, h, k)) && GetMutCall(Own(GetMutSteps(t, h, k), t), t, h)
    ensures IsAt(After(s, GetMutSteps(t, h, k)), t, if s.c.strong[k].val == 1 then Mut(h) else Idle)
    ensures !After(s, GetMutSteps(t, h, k)).aborted
  {
    hide Runs, After, Enabled, Next;
    LockStep(s, t, h, k);
    var d := Next(s, UqLock(t, h, true));
    LoadStep(d, t, h, k);
    UqUnlockHere(Next(d, UqLoad(t, k)), t);
    Three(s, UqLock(t, h, true), UqLoad(t, k), UqUnlock(t));
    AllOwn(GetMutSteps(t, h, k), t);
  }

  lemma LockStep(s: State, t: Tid, h: Hid, k: nat)
    requires Calls(s, t, h) && LastW(s.c).val == 1 && Max(s.c.cur[t].s, LastW(s.c).view.s) <= k < |s.c.strong|
    ensures Enabled(s, UqLock(t, h, true))
    ensures var d := Next(s, UqLock(t, h, true));
            Ready(d, t, UqLocked(h, true)) && CanReadS(d, t, k) && d.c.strong == s.c.strong
  {
    hide NextOwner, NextLate, EnabledOwner, EnabledLate;
  }

  lemma LoadStep(s: State, t: Tid, h: Hid, k: nat)
    requires Ready(s, t, UqLocked(h, true)) && CanReadS(s, t, k)
    ensures Enabled(s, UqLoad(t, k)) && Ready(Next(s, UqLoad(t, k)), t, UqLoaded(h, true, s.c.strong[k].val == 1))
  {
    hide NextOwner, NextLate, EnabledOwner, EnabledLate;
  }

  function MakeMutSteps(t: Tid, h: Hid, k: nat): seq<Label> { [MakeMutTake(t, h), WindowLoad(t, k)] }

  /** `make_mut` that finds `strong` at 1 and reads write `k` of `weak`. */
  lemma MakeMutRun(s: State, t: Tid, h: Hid, k: nat)
    requires Calls(s, t, h) && LastS(s.c).val == 1 && Max(s.c.cur[t].w, LastS(s.c).view.w) <= k < |s.c.weak|
    ensures Runs(s, MakeMutSteps(t, h, k)) && MakeMutCall(Own(MakeMutSteps(t, h, k), t), t, h)
    ensures IsAt(After(s, MakeMutSteps(t, h, k)), t, if s.c.weak[k].val == 1 then Restore(h) else Consuming(h, KSteal))
  {
    hide Runs, After, Enabled, Next;
    TakeStep(s, t, h, k);
    WindowLoadHere(Next(s, MakeMutTake(t, h)), t, h, k);
    Two(s, MakeMutTake(t, h), WindowLoad(t, k));
    AllOwn(MakeMutSteps(t, h, k), t);
  }

  lemma TakeStep(s: State, t: Tid, h: Hid, k: nat)
    requires Calls(s, t, h) && LastS(s.c).val == 1 && Max(s.c.cur[t].w, LastS(s.c).view.w) <= k < |s.c.weak|
    ensures Enabled(s, MakeMutTake(t, h))
    ensures var d := Next(s, MakeMutTake(t, h)); Ready(d, t, Window(h)) && CanReadW(d, t, k) && d.c.weak == s.c.weak
  {
    hide NextShared, NextLate, EnabledShared, EnabledLate;
  }

  /** Any write other than a 1 that is still to be read makes the compare-exchange fail. */
  lemma GetMutMissRun(s: State, t: Tid, h: Hid, k: nat)
    requires Calls(s, t, h) && CanReadW(s, t, k) && s.c.weak[k].val != 1
    ensures !GetMutAlways(s, t, h)
  {
    hide Runs, After, Enabled, Next;
    var l := UqMiss(t, h, k);
    UqHere(s, t, h, k);
    One(s, l);
    AllOwn([l], t);
  }

  lemma MakeMutMissRun(s: State, t: Tid, h: Hid, k: nat)
    requires Calls(s, t, h) && CanReadS(s, t, k) && s.c.strong[k].val != 1
    ensures !MakeMutAlways(s, t, h)
  {
    hide Runs, After, Enabled, Next;
    var l := MakeMutMiss(t, h, k);
    TakeHere(s, t, h, k);
    One(s, l);
    AllOwn([l], t);
  }

  lemma UnwrapMissRun(s: State, t: Tid, h: Hid, k: nat)
    requires Calls(s, t, h) && CanReadS(s, t, k) && s.c.strong[k].val != 1
    ensures !UnwrapAlways(s, t, h)
  {
    hide Runs, After, Enabled, Next;
    var l := UnwrapMiss(t, h, k);
    UnwrapHere(s, t, h, k);
    One(s, l);
    AllOwn([l], t);
  }

  lemma UnwrapOkRun(s: State, t: Tid, h: Hid)
    requires Calls(s, t, h) && LastS(s.c).val == 1
    ensures var ls := [UnwrapOk(t, h)];
            Runs(s, ls) && UnwrapCall(Own(ls, t), t, h) && IsAt(After(s, ls), t, Fencing(h, KUnwrap))
  {
    hide Runs, After, Enabled, Next;
    var l := UnwrapOk(t, h);
    UnwrapHere(s, t, h, 0);
    One(s, l);
    AllOwn([l], t);
  }

  // ---- the exact conditions ----

  /** What the invariant says of a lone handle. */
  ghost predicate LoneFacts(s: State, t: Tid, h: Hid) {
    && Calls(s, t, h) && Lone(s, t, h) && StrongOk(s.c) && WeakOk(s.c) && LastS(s.c).val == 1 && LastW(s.c).val == 1
    && s.c.cur[t].s < |s.c.strong| && s.c.cur[t].w < |s.c.weak|
    && LastW(s.c).view.s < |s.c.strong| && LastS(s.c).view.w < |s.c.weak|
  }

  lemma LoneInv(s: State, t: Tid, h: Hid)
    requires Reachable(s) && !s.aborted && IdleAt(s, t) && Sole(s.c, t, h)
    ensures Inv(s) && LoneFacts(s, t, h)
  {
    hide Reachable, Local, Inv, Seen, Cov, Holder, Visible;
    ReachableInv(s);
    SoleFacts(s, t, h);
  }

  lemma SoleFacts(s: State, t: Tid, h: Hid)
    requires Inv(s) && !s.aborted && IdleAt(s, t) && Sole(s.c, t, h)
    ensures LoneFacts(s, t, h)
  {
    hide Pcs, Frees, Datas, Bounds, News, Intos, Seen, Cov, Holder, Visible, SStep, WStep;
    var c := s.c;
    assert c.roots.Keys == {h} && c.weaks.Keys == {};
    assert Good(c, c.cur[t]) && Good(c, LastW(c).view) && Good(c, LastS(c).view);
    assert WVal(LastW(c));
  }

  /** `get_mut` on the only handle of any kind succeeds on every path, whatever other threads do
      meanwhile, exactly when the caller has observed the newest write of both counters. */
  lemma GetMutExactly(s: State, t: Tid, h: Hid)
    requires Reachable(s) && !s.aborted && IdleAt(s, t) && Sole(s.c, t, h)
    ensures |s.c.weak| > 0 && (GetMutAlways(s, t, h) <==> GetMutSees(s.c, t))
  {
    hide Inv, Reachable, Enabled, Next, Calls, StrongOk, WeakOk, Runs, After, GetMutCall;
    LoneInv(s, t, h);
    var c := s.c;
    var from := Max(c.cur[t].s, LastW(c).view.s);
    SureIsNewestW(c, c.cur[t].w);
    SureIsNewestS(c, from);
    if GetMutSees(c, t) {
      forall ls | Runs(s, ls) && GetMutCall(Own(ls, t), t, h) ensures IsAt(After(s, ls), t, Mut(h)) {
        TrackArrives(s, ls, t, h, Mut(h));
        Arrived(After(s, ls), t, h, Mut(h));
      }
    } else if k :| c.cur[t].w <= k < |c.weak| && c.weak[k].val != 1 {
      GetMutMissRun(s, t, h, k);
    } else {
      var k :| from <= k < |c.strong| && c.strong[k].val != 1;
      GetMutRun(s, t, h, k);
    }
  }

  /** `make_mut` on the only handle works in place on every path exactly under the same condition
      with the counters exchanged; otherwise it may clone or move the data for nothing. */
  lemma MakeMutExactly(s: State, t: Tid, h: Hid)
    requires Reachable(s) && !s.aborted && IdleAt(s, t) && Sole(s.c, t, h)
    ensures |s.c.strong| > 0 && (MakeMutAlways(s, t, h) <==> MakeMutSees(s.c, t))
  {
    hide Inv, Reachable, Enabled, Next, Calls, StrongOk, WeakOk, Runs, After, MakeMutCall;
    LoneInv(s, t, h);
    var c := s.c;
    var from := Max(c.cur[t].w, LastS(c).view.w);
    SureIsNewestS(c, c.cur[t].s);
    SureIsNewestW(c, from);
    if MakeMutSees(c, t) {
      forall ls | Runs(s, ls) && MakeMutCall(Own(ls, t), t, h) ensures IsAt(After(s, ls), t, Restore(h)) {
        TrackArrives(s, ls, t, h, Restore(h));
        Arrived(After(s, ls), t, h, Restore(h));
      }
    } else if k :| c.cur[t].s <= k < |c.strong| && c.strong[k].val != 1 {
      MakeMutMissRun(s, t, h, k);
    } else {
      var k :| from <= k < |c.weak| && c.weak[k].val != 1;
      MakeMutRun(s, t, h, k);
    }
  }

  /** `try_unwrap` on the only handle returns the value on every path exactly when the caller has
      observed the newest write of `strong`. */
  lemma UnwrapExactly(s: State, t: Tid, h: Hid)
    requires Reachable(s) && !s.aborted && IdleAt(s, t) && Sole(s.c, t, h)
    ensures UnwrapAlways(s, t, h) <==> UnwrapSees(s.c, t)
  {
    hide Inv, Reachable, Enabled, Next, Calls, StrongOk, WeakOk, Runs, After, UnwrapCall;
    LoneInv(s, t, h);
    var c := s.c;
    SureIsNewestS(c, c.cur[t].s);
    if UnwrapSees(c, t) {
      forall ls | Runs(s, ls) && UnwrapCall(Own(ls, t), t, h) ensures IsAt(After(s, ls), t, Fencing(h, KUnwrap)) {
        TrackArrives(s, ls, t, h, Fencing(h, KUnwrap));
        Arrived(After(s, ls), t, h, Fencing(h, KUnwrap));
      }
    } else {
      var k :| c.cur[t].s <= k < |c.strong| && c.strong[k].val != 1;
      UnwrapMissRun(s, t, h, k);
    }
  }

  /** No lone handle is bound to fail: each call also has a run in which it succeeds. */
  lemma LoneHandlesCanSucceed(s: State, t: Tid, h: Hid)
    requires Reachable(s) && !s.aborted && IdleAt(s, t) && Sole(s.c, t, h)
    ensures exists ls :: Runs(s, ls) && GetMutCall(Own(ls, t), t, h) && IsAt(After(s, ls), t, Mut(h))
    ensures exists ls :: Runs(s, ls) && MakeMutCall(Own(ls, t), t, h) && IsAt(After(s, ls), t, Restore(h))
    ensures exists ls :: Runs(s, ls) && UnwrapCall(Own(ls, t), t, h) && IsAt(After(s, ls), t, Fencing(h, KUnwrap))
  {
    hide Inv, Reachable, Enabled, Next, Calls, StrongOk, WeakOk, Runs, After, GetMutCall, MakeMutCall, UnwrapCall;
    hide GetMutSteps, MakeMutSteps;
    LoneInv(s, t, h);
    GetMutRun(s, t, h, |s.c.strong| - 1);
    MakeMutRun(s, t, h, |s.c.weak| - 1);
    UnwrapOkRun(s, t, h);
  }

  /** What a caller can arrange: once everything done through the handles given up has been passed
      on to it, the owner of the lone handle succeeds in all three. */
  lemma SynchronisedOwnersSucceed(s: State, t: Tid, h: Hid)
    requires Reachable(s) && !s.aborted && IdleAt(s, t) && Sole(s.c, t, h) && AllKnown(s.c, t)
    ensures GetMutAlways(s, t, h) && MakeMutAlways(s, t, h) && UnwrapAlways(s, t, h)
  {
    hide Reachable, GetMutAlways, MakeMutAlways, UnwrapAlways;
    GetMutExactly(s, t, h);
    MakeMutExactly(s, t, h);
    UnwrapExactly(s, t, h);
    ReachableInv(s);
    KnowsNewest(s.c, t);
  }

  lemma KnowsNewest(c: Core, t: Tid)
    requires CoreInv(c) && AllKnown(c, t)
    ensures |c.strong| > 0 && |c.weak| > 0 && t in c.cur && GetMutSees(c, t) && MakeMutSees(c, t) && UnwrapSees(c, t)
  {
    hide Seen, Cov, Holder, Visible, SStep, WStep, WVal;
    assert Good(c, c.cur[t]) && Good(c, LastS(c).view) && Good(c, LastW(c).view);
    assert LastS(c).id in c.cur[t].ev && LastW(c).id in c.cur[t].ev;
  }
}
