/** Runs that show where the guarantees end: `try_unwrap(..).ok()` can lose the value, a `None`
    from `upgrade` is final only for `Arc::new`, where even so the 0 it read need not be, and
    `get_mut` may fail on a lone handle; and the run that every lone handle has, to the free. */
module ArcRuns {
  import opened Common
  import opened ArcState
  import opened ArcCore
  import opened ArcSteps
  import opened ArcInvariant
  import opened ArcFrame
  import opened ArcTheorems
  import opened ArcGuarantees
  import opened ArcCalls
  import opened ArcCode
  import opened ArcFinal
  import opened ArcLone

  // ---- the end of every life ----

  function Endings(t: Tid): seq<Label> { [FenceStrong(t), Consume(t), DropImplicitWeak(t)] }

  /** The last owner fences, consumes the data and gives up the implicit weak reference. */
  lemma Ends(i: State, ls: seq<Label>, s: State, t: Tid, h: Hid, kind: Kind) returns (d: State)
    requires RunsTo(i, ls, s) && Inv(s) && !s.aborted && t in s.pc && s.pc[t] == Fencing(h, kind)
    ensures RunsTo(i, ls + Endings(t), d) && Inv(d) && !d.aborted && t in d.pc
    ensures d.c.roots == map[] && d.consumed == 1
    ensures s.c.weaks == map[] ==> d.pc[t] == FreeFencing
  {
    hide Inv, Enabled, Next, RunsTo, Runs, After;
    HereOk(s, t);
    TakingHere(s, t);
    KeepsWeaks(s, FenceStrong(t));
    StepKeeps(s, FenceStrong(t));
    var s1 := Next(s, FenceStrong(t));
    Extend(i, ls, s, FenceStrong(t));
    HereOk(s1, t);
    TakingHere(s1, t);
    KeepsWeaks(s1, Consume(t));
    StepKeeps(s1, Consume(t));
    var s2 := Next(s1, Consume(t));
    Extend(i, ls + [FenceStrong(t)], s1, Consume(t));
    d := Releases(i, ls + [FenceStrong(t)] + [Consume(t)], s2, t, h, kind);
    assert ls + [FenceStrong(t)] + [Consume(t)] + [DropImplicitWeak(t)] == ls + Endings(t);
  }

  lemma Releases(i: State, ls: seq<Label>, s: State, t: Tid, h: Hid, kind: Kind) returns (d: State)
    requires RunsTo(i, ls, s) && Inv(s) && !s.aborted && t in s.pc && s.pc[t] == Releasing(h, kind)
    ensures RunsTo(i, ls + [DropImplicitWeak(t)], d) && Inv(d) && !d.aborted && t in d.pc
    ensures d.c.roots == map[] && d.consumed == 1
    ensures s.c.weaks == map[] ==> d.pc[t] == FreeFencing
  {
    hide Inv, Enabled, Next, RunsTo, Runs, After;
    HereOk(s, t);
    TakingHere(s, t);
    ReleaseReturns(s, t);
    LastReference(s, t);
    StepKeeps(s, DropImplicitWeak(t));
    d := Next(s, DropImplicitWeak(t));
    Extend(i, ls, s, DropImplicitWeak(t));
  }

  lemma KeepsWeaks(s: State, l: Label)
    requires Enabled(s, l) && (l.FenceStrong? || l.Consume?)
    ensures Next(s, l).c.weaks == s.c.weaks
  {
    hide Join;
  }

  lemma LastReference(s: State, t: Tid)
    requires Inv(s) && t in s.pc && s.pc[t].Releasing? && Enabled(s, DropImplicitWeak(t))
    ensures Next(s, DropImplicitWeak(t)).c.roots == map[]
    ensures s.c.weaks == map[] ==> |s.c.weak| > 0 && LastW(s.c).val == 1
  {
    hide CoreInv, Frees, Datas, Bounds, News, Intos, RmwW;
    Newest(s.c);
    assert PcOk(s, t);
  }

  /** What the owner of a lone handle can do: `get_mut`, a write, and the drop that ends it all. */
  function Life(t: Tid, h: Hid, k: nat): seq<Label> {
    GetMutSteps(t, h, k) + [MutWrite(t)] + [MutEnd(t)] + [DropArc(t, h, false)] + Endings(t) + [FenceWeak(t)] + [Free(t)]
  }

  /** In every reachable state with one handle of any kind there is such a run: `get_mut` succeeds,
      the data is written, dropped, and the block freed. */
  lemma WholeLife(s: State, t: Tid, h: Hid)
    requires Reachable(s) && !s.aborted && IdleAt(s, t) && Sole(s.c, t, h)
    ensures exists k, d :: RunsTo(s, Life(t, h, k), d) && d.consumed == 1 && d.freed == 1 && d.c.roots == map[]
  {
    hide Inv, Reachable, Enabled, Next, RunsTo, Runs, After, Endings, GetMutSteps;
    LoneInv(s, t, h);
    var k := |s.c.strong| - 1;
    var ls := GetMutSteps(t, h, k);
    GetMutRun(s, t, h, k);
    RunKeeps(s, ls);
    var m := After(s, ls);
    RunsToAfter(s, ls);
    var d := WriteAndDrop(s, ls, m, t, h);
    ls := ls + [MutWrite(t)] + [MutEnd(t)] + [DropArc(t, h, false)];
    var e := Ends(s, ls, d, t, h, KDrop);
    var f := FreesBlock(s, ls + Endings(t), e, t);
    assert RunsTo(s, Life(t, h, k), f);
  }

  lemma RunsToAfter(i: State, ls: seq<Label>)
    requires Runs(i, ls)
    ensures RunsTo(i, ls, After(i, ls))
  {
  }

  lemma WriteAndDrop(i: State, ls: seq<Label>, s: State, t: Tid, h: Hid) returns (d: State)
    requires RunsTo(i, ls, s) && Inv(s) && !s.aborted && IsAt(s, t, Mut(h))
    ensures RunsTo(i, ls + [MutWrite(t)] + [MutEnd(t)] + [DropArc(t, h, false)], d)
    ensures Inv(d) && !d.aborted && t in d.pc && d.pc[t] == Fencing(h, KDrop) && d.c.weaks == map[]
  {
    hide Inv, Enabled, Next, RunsTo, Runs, After;
    HereOk(s, t);
    MutHere(s, t, h);
    StepKeeps(s, MutWrite(t));
    var s1 := Next(s, MutWrite(t));
    Extend(i, ls, s, MutWrite(t));
    HereOk(s1, t);
    MutHere(s1, t, h);
    StepKeeps(s1, MutEnd(t));
    var s2 := Next(s1, MutEnd(t));
    Extend(i, ls + [MutWrite(t)], s1, MutEnd(t));
    MutExclusive(s1, t);
    HereOk(s2, t);
    SoleFacts(s2, t, h);
    DropArcHere(s2, t, h, false);
    DropKeepsWeaks(s2, t, h);
    StepKeeps(s2, DropArc(t, h, false));
    d := Next(s2, DropArc(t, h, false));
    Extend(i, ls + [MutWrite(t)] + [MutEnd(t)], s2, DropArc(t, h, false));
  }

  lemma MutHere(s: State, t: Tid, h: Hid)
    requires Sane(s) && !s.aborted && At(s, t) && s.pc[t] == Mut(h)
    ensures Goes(s, MutWrite(t), Mut(h)) && Goes(s, MutEnd(t), Idle) && Next(s, MutEnd(t)).c == s.c
  {
    hide Use;
  }

  lemma DropKeepsWeaks(s: State, t: Tid, h: Hid)
    requires Enabled(s, DropArc(t, h, false))
    ensures Next(s, DropArc(t, h, false)).c.weaks == s.c.weaks
  {
    hide Join;
  }

  /** Whoever took `weak` to 0 frees the block. */
  lemma FreesBlock(i: State, ls: seq<Label>, s: State, t: Tid) returns (d: State)
    requires RunsTo(i, ls, s) && Inv(s) && !s.aborted && t in s.pc && s.pc[t] == FreeFencing
    ensures RunsTo(i, ls + [FenceWeak(t)] + [Free(t)], d)
    ensures d.freed == 1 && d.consumed >= s.consumed && d.consumed <= 1 && d.c.roots == map[]
  {
    hide Inv, Enabled, Next, RunsTo, Runs, After;
    HereOk(s, t);
    FreeHere(s, t);
    StepKeeps(s, FenceWeak(t));
    var s1 := Next(s, FenceWeak(t));
    Extend(i, ls, s, FenceWeak(t));
    HereOk(s1, t);
    FreeHere(s1, t);
    StepKeeps(s1, Free(t));
    d := Next(s1, Free(t));
    Extend(i, ls + [FenceWeak(t)], s1, Free(t));
    OnceEachInv(d);
    FreedHasNone(d);
  }

  lemma FreedHasNone(s: State)
    requires Inv(s) && s.freed > 0
    ensures s.c.roots == map[]
  {
    hide CoreInv, Pcs, Datas, Bounds, News, Intos;
    AllReleased(s);
  }

  // ---- two threads ----

  /** Two threads at `p0` and `p1`, `n` writes to `strong` of which they have observed `s0` and `s1`. */
  predicate Looks(d: State, p0: Pc, p1: Pc, phase: Phase, roots: map<Hid, set<Tid>>, n: nat, val: nat, s0: nat, s1: nat) {
    && d.c.cur.Keys == {0, 1} && d.c.acq.Keys == {0, 1} && d.pc.Keys == {0, 1} && !d.aborted
    && d.pc[0] == p0 && d.pc[1] == p1 && d.c.phase == phase && d.c.roots == roots
    && |d.c.strong| == n > 0 && LastS(d.c).val == val && d.c.cur[0].s == s0 && d.c.cur[1].s == s1
    && |d.c.weak| == 1 && d.c.weak[0].val == 1 && d.c.weaks == map[] && d.c.lock == None
    && d.returned == 0 && d.c.cur[0].w == 0 && d.c.weak[0].view == View(0, 0, {})
  }

  function Two(ts: set<Tid>, us: set<Tid>): map<Hid, set<Tid>> { map[0 := ts, 1 := us] }

  lemma NewLooks(s: State)
    requires s == ArcNew({0, 1}, 0)
    ensures Looks(s, Idle, Idle, Counted, map[0 := {0}], 1, 1, 0, 0) && s.c.nextH == 1 && s.consumed == 0
  {
  }

  lemma CloneStep(s: State)
    requires Looks(s, Idle, Idle, Counted, map[0 := {0}], 1, 1, 0, 0) && s.c.nextH == 1 && s.consumed == 0
    ensures Enabled(s, Clone(0, 0))
    ensures Looks(Next(s, Clone(0, 0)), Idle, Idle, Counted, Two({0}, {0}), 2, 2, 1, 0) && Next(s, Clone(0, 0)).consumed == 0
  {
    assert Enabled(s, Clone(0, 0)) by { hide NextShared; }
    hide Enabled, Next, EnabledShared;
    SharedNext(s, Clone(0, 0));
  }

  lemma SendStep(s: State)
    requires Looks(s, Idle, Idle, Counted, Two({0}, {0}), 2, 2, 1, 0)
    ensures Enabled(s, Lend(0, 1, Root(1)))
    ensures Looks(Next(s, Lend(0, 1, Root(1))), Idle, Idle, Counted, Two({0}, {0, 1}), 2, 2, 1, 1)
    ensures Next(s, Lend(0, 1, Root(1))).consumed == s.consumed
  {
    hide NextOwner, NextLate, EnabledOwner, EnabledLate;
    assert {0} + {1} == {0, 1};
  }

  lemma GiveStep(s: State)
    requires Looks(s, Idle, Idle, Counted, Two({0}, {0, 1}), 2, 2, 1, 1)
    ensures Enabled(s, GiveBackTo(0, 1, Root(1)))
    ensures Looks(Next(s, GiveBackTo(0, 1, Root(1))), Idle, Idle, Counted, Two({0}, {1}), 2, 2, 1, 1)
    ensures Next(s, GiveBackTo(0, 1, Root(1))).consumed == s.consumed
  {
    hide NextOwner, NextLate, EnabledOwner, EnabledLate;
    assert {0, 1} - {0} == {1};
  }

  /** The state in which each of two threads owns one of the two handles. */
  function Sent(): seq<Label> { [Clone(0, 0), Lend(0, 1, Root(1)), GiveBackTo(0, 1, Root(1))] }

  lemma SentRun() returns (s: State)
    ensures RunsTo(ArcNew({0, 1}, 0), Sent(), s) && s.consumed == 0
    ensures Looks(s, Idle, Idle, Counted, Two({0}, {1}), 2, 2, 1, 1)
  {
    hide Enabled, Next, Looks, Start, RunsTo;
    var i := ArcNew({0, 1}, 0);
    s := i;
    NewLooks(s);
    NoSteps(i);
    CloneStep(s);
    Extend(i, [], s, Clone(0, 0));
    s := Next(s, Clone(0, 0));
    SendStep(s);
    Extend(i, [] + [Clone(0, 0)], s, Lend(0, 1, Root(1)));
    s := Next(s, Lend(0, 1, Root(1)));
    GiveStep(s);
    Extend(i, [] + [Clone(0, 0)] + [Lend(0, 1, Root(1))], s, GiveBackTo(0, 1, Root(1)));
    s := Next(s, GiveBackTo(0, 1, Root(1)));
    assert [] + [Clone(0, 0)] + [Lend(0, 1, Root(1))] + [GiveBackTo(0, 1, Root(1))] == Sent();
  }

  lemma RunInv(ls: seq<Label>, s: State)
    requires RunsTo(ArcNew({0, 1}, 0), ls, s)
    ensures Inv(s)
  {
    hide Inv, Start;
    StartInv({0, 1}, 0, 1, Counted, Whole, true);
    RunKeeps(ArcNew({0, 1}, 0), ls);
  }

  // ---- try_unwrap(..).ok() ----

  lemma MissStep(s: State, t: Tid)
    requires Looks(s, Idle, Idle, Counted, Two({0}, {1}), 2, 2, 1, 1) && t in {0, 1}
    ensures Enabled(s, UnwrapMiss(t, t, 1))
    ensures var d := Next(s, UnwrapMiss(t, t, 1));
            Looks(d, Idle, Idle, Counted, Two({0}, {1}), 2, 2, 1, 1) && d.consumed == s.consumed
  {
  }

  lemma DropStep0(s: State)
    requires Looks(s, Idle, Idle, Counted, Two({0}, {1}), 2, 2, 1, 1)
    ensures Enabled(s, DropArc(0, 0, false))
    ensures var d := Next(s, DropArc(0, 0, false));
            Looks(d, Idle, Idle, Counted, map[1 := {1}], 3, 1, 2, 1) && d.consumed == s.consumed
  {
  }

  lemma DropStep1(s: State)
    requires Looks(s, Idle, Idle, Counted, map[1 := {1}], 3, 1, 2, 1)
    ensures Enabled(s, DropArc(1, 1, false))
    ensures var d := Next(s, DropArc(1, 1, false));
            Looks(d, Idle, Fencing(1, KDrop), Held(1, false), map[1 := {1}], 4, 0, 2, 3) && d.consumed == s.consumed
  {
  }

  /** Both handles are given up by `try_unwrap(..).ok()`: a failed `try_unwrap`, then a drop. */
  ghost predicate OnlyTryUnwrapOk(ls: seq<Label>) {
    forall i :: 0 <= i < |ls| ==> !ls[i].UnwrapOk? && !ls[i].MakeMutTake? && (ls[i].DropArc? ==> Discarded(ls, i))
  }

  ghost predicate Discarded(ls: seq<Label>, i: nat)
    requires i < |ls| && ls[i].DropArc?
  {
    !ls[i].into && exists j :: 0 <= j < i && ls[j].UnwrapMiss? && ls[j].t == ls[i].t && ls[j].h == ls[i].h
  }

  function Discards(): seq<Label> {
    Sent() + [UnwrapMiss(0, 0, 1)] + [UnwrapMiss(1, 1, 1)] + [DropArc(0, 0, false)] + [DropArc(1, 1, false)] + Endings(1)
  }

  lemma DiscardsRun() returns (d: State)
    ensures RunsTo(ArcNew({0, 1}, 0), Discards(), d) && d.c.roots == map[] && d.consumed == 1
  {
    hide Enabled, Next, Looks, Start, Sent, RunsTo, Inv;
    var i := ArcNew({0, 1}, 0);
    var s := SentRun();
    MissStep(s, 0);
    Extend(i, Sent(), s, UnwrapMiss(0, 0, 1));
    s := Next(s, UnwrapMiss(0, 0, 1));
    MissStep(s, 1);
    var l1 := Sent() + [UnwrapMiss(0, 0, 1)];
    Extend(i, l1, s, UnwrapMiss(1, 1, 1));
    s := Next(s, UnwrapMiss(1, 1, 1));
    DropStep0(s);
    var l2 := l1 + [UnwrapMiss(1, 1, 1)];
    Extend(i, l2, s, DropArc(0, 0, false));
    s := Next(s, DropArc(0, 0, false));
    DropStep1(s);
    var l3 := l2 + [DropArc(0, 0, false)];
    Extend(i, l3, s, DropArc(1, 1, false));
    s := Next(s, DropArc(1, 1, false));
    RunInv(l3 + [DropArc(1, 1, false)], s);
    LastToDrop(s);
    d := Ends(i, l3 + [DropArc(1, 1, false)], s, 1, 1, KDrop);
  }

  lemma LastToDrop(s: State)
    requires Looks(s, Idle, Fencing(1, KDrop), Held(1, false), map[1 := {1}], 4, 0, 2, 3)
    ensures !s.aborted && 1 in s.pc && s.pc[1] == Fencing(1, KDrop)
  {
  }

  /** With `try_unwrap(..).ok()` on every handle there is a run in which no call returns the value:
      the data is dropped instead. */
  lemma TryUnwrapOkCanLoseTheValue()
    ensures exists ls :: Runs(ArcNew({0, 1}, 0), ls) && OnlyTryUnwrapOk(ls)
                         && After(ArcNew({0, 1}, 0), ls).c.roots == map[] && After(ArcNew({0, 1}, 0), ls).consumed == 1
  {
    hide Runs, After, Start;
    var _ := DiscardsRun();
    var ls := Discards();
    assert ls[3] == UnwrapMiss(0, 0, 1) && ls[4] == UnwrapMiss(1, 1, 1);
    forall i | 0 <= i < |ls| ensures !ls[i].UnwrapOk? && !ls[i].MakeMutTake? && (ls[i].DropArc? ==> Discarded(ls, i)) {
      if ls[i].DropArc? { assert i == 5 || i == 6; }
    }
    assert OnlyTryUnwrapOk(ls);
  }

  // ---- a stale load makes get_mut fail on a lone handle ----

  lemma DropStepOther(s: State)
    requires Looks(s, Idle, Idle, Counted, Two({0}, {1}), 2, 2, 1, 1)
    ensures Enabled(s, DropArc(1, 1, false))
    ensures Looks(Next(s, DropArc(1, 1, false)), Idle, Idle, Counted, map[0 := {0}], 3, 1, 1, 2)
    ensures Next(s, DropArc(1, 1, false)).c.strong[1].val == 2
  {
  }

  lemma MayReadStale(s: State)
    requires Looks(s, Idle, Idle, Counted, map[0 := {0}], 3, 1, 1, 2)
    ensures Calls(s, 0, 0) && LastW(s.c).val == 1 && Max(s.c.cur[0].s, LastW(s.c).view.s) <= 1 < |s.c.strong|
  {
  }

  /** Thread 0 has the only handle of any kind, and yet one way its `get_mut` can go is to fail. */
  ghost predicate FailsAlone(s: State) {
    && IdleAt(s, 0) && Sole(s.c, 0, 0)
    && Runs(s, GetMutSteps(0, 0, 1)) && IsAt(After(s, GetMutSteps(0, 0, 1)), 0, Idle)
  }

  /** The uniqueness check is sound but not complete: a run in which thread 1 dropped its handle,
      after which `get_mut` on the one handle left may read a stale `strong` and return `None`. */
  lemma GetMutCanFailOnALoneHandle()
    ensures exists ls, s :: RunsTo(ArcNew({0, 1}, 0), ls, s) && FailsAlone(s)
  {
    hide Enabled, Next, Looks, Start, Sent, RunsTo, Runs, After, GetMutSteps;
    var i := ArcNew({0, 1}, 0);
    var s := SentRun();
    DropStepOther(s);
    Extend(i, Sent(), s, DropArc(1, 1, false));
    var d := Next(s, DropArc(1, 1, false));
    MayReadStale(d);
    GetMutRun(d, 0, 0, 1);
    assert RunsTo(i, Sent() + [DropArc(1, 1, false)], d) && FailsAlone(d);
  }

  // ---- upgrade after into_arc ----

  predicate Alone(d: State, p: Pc, phase: Phase, roots: map<Hid, set<Tid>>, n: nat, val: nat) {
    && d.c.cur.Keys == {0} && d.c.acq.Keys == {0} && d.pc.Keys == {0} && !d.aborted && d.pc[0] == p
    && d.c.phase == phase && d.c.roots == roots && |d.c.strong| == n > 0 && LastS(d.c).val == val
    && |d.c.weak| == 2 && d.c.weaks == map[1 := {0}] && d.c.nextH == 2 && d.c.cur[0].s < n
  }

  lemma DowngradeStep(s: State)
    requires s == UniqueNew({0}, 0)
    ensures Enabled(s, CloneWeak(0, Root(0)))
    ensures Alone(Next(s, CloneWeak(0, Root(0))), Idle, UniqueB, map[0 := {0}], 1, 0)
  {
  }

  lemma RefusedStep(s: State)
    requires Alone(s, Idle, UniqueB, map[0 := {0}], 1, 0)
    ensures Enabled(s, UpStart(0, 1, 0))
    ensures Alone(Next(s, UpStart(0, 1, 0)), Idle, UniqueB, map[0 := {0}], 1, 0) && 1 in Next(s, UpStart(0, 1, 0)).nones
  {
  }

  lemma AloneRests(s: State)
    requires Inv(s) && Alone(s, Idle, UniqueB, map[0 := {0}], 1, 0)
    ensures Resting(s) && 1 in s.c.weaks && !Over(s.c.phase) && |s.c.strong| > 0 && LastS(s.c).val <= MAX_REFCOUNT
  {
    hide Inv;
  }

  /** For a `UniqueArc` a `Weak` whose `upgrade` returned `None` can upgrade later: the hypothesis
      `fromNew` of the theorem about `None` cannot be dropped. */
  lemma NoneIsNotForeverForUniqueArc()
    ensures exists ls, s :: RunsTo(UniqueNew({0}, 0), ls, s) && 1 in s.nones && CanUpgrade(s, 1)
  {
    hide Enabled, Next, Alone, Start, RunsTo, Inv, CanUpgrade;
    var i := UniqueNew({0}, 0);
    StartInv({0}, 0, 0, UniqueB, Whole, false);
    NoSteps(i);
    DowngradeStep(i);
    StepKeeps(i, CloneWeak(0, Root(0)));
    Extend(i, [], i, CloneWeak(0, Root(0)));
    var s := Next(i, CloneWeak(0, Root(0)));
    RefusedStep(s);
    StepKeeps(s, UpStart(0, 1, 0));
    Extend(i, [] + [CloneWeak(0, Root(0))], s, UpStart(0, 1, 0));
    s := Next(s, UpStart(0, 1, 0));
    AloneRests(s);
    StillUpgrades(s, 1);
    assert RunsTo(i, [] + [CloneWeak(0, Root(0))] + [UpStart(0, 1, 0)], s);
  }

  // ---- strong at 0, and back at 1 ----

  /** One `Arc` owned by thread 0; `strong` has had the first `n` of the values 1, 0, 1, and `weak`
      the first `m` of the values 1, 2, 1. */
  predicate Stage(d: State, p0: Pc, phase: Phase, weaks: map<Hid, set<Tid>>, n: nat, m: nat) {
    d.pc == map[0 := p0, 1 := Idle] && !d.aborted && d.fromNew && StageCore(d.c, phase, weaks, n, m)
  }

  predicate StageCore(c: Core, phase: Phase, weaks: map<Hid, set<Tid>>, n: nat, m: nat) {
    && c.cur.Keys == {0, 1} && c.acq.Keys == {0, 1}
    && c.phase == phase && c.lock == None && c.roots == map[0 := {0}] && c.weaks == weaks
    && 1 <= |c.strong| == n <= 3 && 1 <= |c.weak| == m <= 3
    && c.strong[0].val == 1 && (n > 1 ==> c.strong[1].val == 0) && (n > 2 ==> c.strong[2].val == 1)
    && c.weak[0].val == 1 && (m > 1 ==> c.weak[1].val == 2) && (m > 2 ==> c.weak[2].val == 1)
    && c.cur[0].s < n && c.cur[1].s < n && c.cur[0].w < m && c.cur[1].w < m
    && c.strong[0].view == View(0, 0, {}) && c.weak[0].view == View(0, 0, {})
  }

  lemma StageNew(s: State)
    requires s == ArcNew({0, 1}, 0)
    ensures Stage(s, Idle, Counted, map[], 1, 1) && s.c.nextH == 1
  {
  }

  lemma StageDown(s: State)
    requires Stage(s, Idle, Counted, map[], 1, 1) && s.c.nextH == 1
    ensures Enabled(s, DownStart(0, 0, 0))
    ensures var d := Next(s, DownStart(0, 0, 0)); Stage(d, Down(0, 1), Counted, map[], 1, 1) && d.c.nextH == 1
  {
    assert Enabled(s, DownStart(0, 0, 0)) by { hide NextShared; }
    hide Enabled, Next, EnabledShared;
    SharedNext(s, DownStart(0, 0, 0));
  }

  lemma StageDownOk(s: State)
    requires Stage(s, Down(0, 1), Counted, map[], 1, 1) && s.c.nextH == 1
    ensures Enabled(s, DownOk(0)) && Stage(Next(s, DownOk(0)), Idle, Counted, map[1 := {0}], 1, 2)
  {
    assert Enabled(s, DownOk(0)) by { hide NextShared; }
    hide Enabled, Next, EnabledShared;
    SharedNext(s, DownOk(0));
  }

  lemma StageLend(s: State)
    requires Stage(s, Idle, Counted, map[1 := {0}], 1, 2)
    ensures Enabled(s, Lend(0, 1, Wk(1))) && Stage(Next(s, Lend(0, 1, Wk(1))), Idle, Counted, map[1 := {0, 1}], 1, 2)
  {
    hide NextOwner, NextLate, EnabledOwner, EnabledLate;
    assert {0} + {1} == {0, 1};
  }

  lemma StageGive(s: State)
    requires Stage(s, Idle, Counted, map[1 := {0, 1}], 1, 2)
    ensures Enabled(s, GiveBackTo(0, 1, Wk(1)))
    ensures Stage(Next(s, GiveBackTo(0, 1, Wk(1))), Idle, Counted, map[1 := {1}], 1, 2)
  {
    hide NextOwner, NextLate, EnabledOwner, EnabledLate;
    assert {0, 1} - {0} == {1};
  }

  lemma StageTake(s: State)
    requires Stage(s, Idle, Counted, map[1 := {1}], 1, 2)
    ensures Enabled(s, MakeMutTake(0, 0))
    ensures Stage(Next(s, MakeMutTake(0, 0)), Window(0), Held(0, true), map[1 := {1}], 2, 2)
  {
    hide NextShared, NextLate, EnabledShared, EnabledLate, DecS;
    StageDec(s.c);
  }

  lemma StageDec(c: Core)
    requires StageCore(c, Counted, map[1 := {1}], 1, 2)
    ensures StageCore(DecS(c, 0, 0, true, false), Held(0, true), map[1 := {1}], 2, 2)
  {
  }

  lemma StageRefused(s: State)
    requires Stage(s, Window(0), Held(0, true), map[1 := {1}], 2, 2)
    ensures Enabled(s, UpStart(1, 1, 1))
    ensures var d := Next(s, UpStart(1, 1, 1)); Stage(d, Window(0), Held(0, true), map[1 := {1}], 2, 2) && 1 in d.nones
  {
    assert Enabled(s, UpStart(1, 1, 1)) by { hide NextLate; }
    hide Enabled, Next, EnabledLate;
    LateNext(s, UpStart(1, 1, 1));
  }

  lemma StageDropWeak(s: State)
    requires Stage(s, Window(0), Held(0, true), map[1 := {1}], 2, 2)
    ensures Enabled(s, DropWeak(1, 1))
    ensures var d := Next(s, DropWeak(1, 1)); Stage(d, Window(0), Held(0, true), map[], 2, 3) && d.nones == s.nones
  {
    assert Enabled(s, DropWeak(1, 1)) by { hide NextLate; }
    hide Enabled, Next, EnabledLate;
    LateNext(s, DropWeak(1, 1));
  }

  lemma StageWindow(s: State)
    requires Stage(s, Window(0), Held(0, true), map[], 2, 3)
    ensures Enabled(s, WindowLoad(0, 2))
    ensures var d := Next(s, WindowLoad(0, 2)); Stage(d, Restore(0), Held(0, true), map[], 2, 3) && d.nones == s.nones
  {
    hide NextShared, NextLate, EnabledShared, EnabledLate;
  }

  lemma StageRestore(s: State)
    requires Stage(s, Restore(0), Held(0, true), map[], 2, 3)
    ensures Enabled(s, RestoreStrong(0))
    ensures var d := Next(s, RestoreStrong(0)); Stage(d, Mut(0), Counted, map[], 3, 3) && d.nones == s.nones
  {
    hide NextShared, NextLate, EnabledShared, EnabledLate;
  }

  /** Thread 0 owns the `Arc` and thread 1 a `Weak`. */
  lemma WeakSent() returns (ls: seq<Label>, s: State)
    ensures RunsTo(ArcNew({0, 1}, 0), ls, s) && Stage(s, Idle, Counted, map[1 := {1}], 1, 2)
  {
    hide Enabled, Next, Stage, Start, RunsTo;
    var i := ArcNew({0, 1}, 0);
    ls, s := [], i;
    StageNew(s);
    NoSteps(i);
    StageDown(s);
    Extend(i, ls, s, DownStart(0, 0, 0));
    ls, s := ls + [DownStart(0, 0, 0)], Next(s, DownStart(0, 0, 0));
    StageDownOk(s);
    Extend(i, ls, s, DownOk(0));
    ls, s := ls + [DownOk(0)], Next(s, DownOk(0));
    StageLend(s);
    Extend(i, ls, s, Lend(0, 1, Wk(1)));
    ls, s := ls + [Lend(0, 1, Wk(1))], Next(s, Lend(0, 1, Wk(1)));
    StageGive(s);
    Extend(i, ls, s, GiveBackTo(0, 1, Wk(1)));
    ls, s := ls + [GiveBackTo(0, 1, Wk(1))], Next(s, GiveBackTo(0, 1, Wk(1)));
  }

  /** Also for `Arc::new`, the 0 that made an `upgrade` return `None` need not be the last value of
      `strong`: while thread 0 is inside `make_mut` the `Weak` of thread 1 is refused and dropped, and
      `make_mut`, finding no `Weak` left, stores 1 again. */
  lemma ZeroIsNotForever()
    ensures exists ls, d :: RunsTo(ArcNew({0, 1}, 0), ls, d) && Revives(d)
  {
    hide Enabled, Next, Stage, Start, RunsTo;
    var i := ArcNew({0, 1}, 0);
    var ls, s := WeakSent();
    StageTake(s);
    Extend(i, ls, s, MakeMutTake(0, 0));
    ls, s := ls + [MakeMutTake(0, 0)], Next(s, MakeMutTake(0, 0));
    StageRefused(s);
    Extend(i, ls, s, UpStart(1, 1, 1));
    ls, s := ls + [UpStart(1, 1, 1)], Next(s, UpStart(1, 1, 1));
    StageDropWeak(s);
    Extend(i, ls, s, DropWeak(1, 1));
    ls, s := ls + [DropWeak(1, 1)], Next(s, DropWeak(1, 1));
    StageWindow(s);
    Extend(i, ls, s, WindowLoad(0, 2));
    ls, s := ls + [WindowLoad(0, 2)], Next(s, WindowLoad(0, 2));
    StageRestore(s);
    Extend(i, ls, s, RestoreStrong(0));
    ls, s := ls + [RestoreStrong(0)], Next(s, RestoreStrong(0));
    StageEnd(s);
    assert RunsTo(i, ls, s) && Revives(s);
  }

  /** `upgrade` on `Weak` 1 was refused, and `strong` went from 1 to 0 and back. */
  predicate Revives(d: State) {
    && d.fromNew && 1 in d.nones && d.c.phase.Counted? && |d.c.strong| == 3
    && d.c.strong[0].val == 1 && d.c.strong[1].val == 0 && d.c.strong[2].val == 1
  }

  lemma StageEnd(s: State)
    requires Stage(s, Mut(0), Counted, map[], 3, 3) && 1 in s.nones
    ensures Revives(s)
  {
  }
}
