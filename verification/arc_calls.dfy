/** Calls: the steps of one thread among those of all others, and what each operation of the code may
    do, as sequences of steps. */
module ArcCalls {
  import opened Common
  import opened ArcState
  import opened ArcCore
  import opened ArcSteps
  import opened ArcInvariant
  import opened ArcFrame
  import opened ArcTheorems

  /** The steps of `t` among `ls`. */
  function Own(ls: seq<Label>, t: Tid): seq<Label> {
    if ls == [] then [] else (if ls[0].t == t then [ls[0]] else []) + Own(ls[1..], t)
  }

  lemma {:induction false} OwnConcat(ls: seq<Label>, ms: seq<Label>, t: Tid)
    ensures Own(ls + ms, t) == Own(ls, t) + Own(ms, t)
  {
    if ls == [] {
      assert ls + ms == ms;
    } else {
      var first := if ls[0].t == t then [ls[0]] else [];
      assert (ls + ms)[1..] == ls[1..] + ms;
      OwnConcat(ls[1..], ms, t);
      assert Own(ls, t) == first + Own(ls[1..], t) && Own(ls + ms, t) == first + Own(ls[1..] + ms, t);
    }
  }

  lemma {:induction false} RunsConcat(s: State, ls: seq<Label>, ms: seq<Label>)
    requires Runs(s, ls) && Runs(After(s, ls), ms)
    ensures Runs(s, ls + ms) && After(s, ls + ms) == After(After(s, ls), ms)
    decreases |ls|
  {
    hide Enabled, Next;
    if ls == [] {
      assert ls + ms == ms;
    } else {
      assert (ls + ms)[1..] == ls[1..] + ms;
      RunsConcat(Next(s, ls[0]), ls[1..], ms);
    }
  }

  // ---- a call in progress ----

  /** A call by `t`, begun in `s` when the steps `trace` had been taken. */
  datatype Call = Call(t: Tid, s: State, trace: seq<Label>)

  function OwnSince(c: Call, trace: seq<Label>): seq<Label> {
    if |c.trace| <= |trace| then Own(trace[|c.trace|..], c.t) else []
  }

  /** No write is taken back, and nothing observed is forgotten. */
  ghost predicate Kept(c: Core, d: Core) {
    && |c.strong| <= |d.strong| && d.strong[..|c.strong|] == c.strong
    && |c.weak| <= |d.weak| && d.weak[..|c.weak|] == c.weak
    && forall t :: t in c.cur ==> t in d.cur && c.cur[t].s <= d.cur[t].s && c.cur[t].w <= d.cur[t].w
  }

  /** Steps of any threads have led from the beginning of the call to `s`. */
  ghost predicate Did(c: Call, s: State, trace: seq<Label>) {
    Inv(c.s) && c.t in c.s.pc && c.trace <= trace && RunsTo(c.s, trace[|c.trace|..], s) && Kept(c.s.c, s.c)
  }

  lemma Begins(t: Tid, s: State, trace: seq<Label>)
    requires Inv(s) && t in s.pc
    ensures Did(Call(t, s, trace), s, trace) && OwnSince(Call(t, s, trace), trace) == []
  {
    hide Inv;
  }

  lemma KeptStep(s: State, l: Label)
    requires Inv(s) && Enabled(s, l)
    ensures Kept(s.c, Next(s, l).c)
  {
    hide CoreInv, Local, Enabled, Next, Beside;
    Newest(s.c);
    StepEffect(s, l);
  }

  lemma Proceeds(c: Call, s: State, trace: seq<Label>, l: Label)
    requires Did(c, s, trace) && Inv(s) && Enabled(s, l)
    ensures Did(c, Next(s, l), trace + [l])
    ensures OwnSince(c, trace + [l]) == OwnSince(c, trace) + if l.t == c.t then [l] else []
  {
    hide Inv, Enabled, Next, Runs, After, Kept;
    var ls, n := trace[|c.trace|..], |c.trace|;
    assert (trace + [l])[n..] == ls + [l];
    RunsSnoc(c.s, ls, l);
    OwnConcat(ls, [l], c.t);
    assert Own([l], c.t) == if l.t == c.t then [l] else [] by { assert [l][1..] == []; }
    KeptStep(s, l);
    KeptTrans(c.s.c, s.c, Next(s, l).c);
  }

  lemma KeptSame(c: Core)
    ensures Kept(c, c)
  {
  }

  lemma KeptTrans(c: Core, d: Core, e: Core)
    requires Kept(c, d) && Kept(d, e)
    ensures Kept(c, e)
  {
    assert e.strong[..|c.strong|] == e.strong[..|d.strong|][..|c.strong|];
    assert e.weak[..|c.weak|] == e.weak[..|d.weak|][..|c.weak|];
  }

  /** A call made inside another. */
  lemma Then(c: Call, m: State, tm: seq<Label>, s: State, trace: seq<Label>)
    requires Did(c, m, tm) && Did(Call(c.t, m, tm), s, trace)
    ensures Did(c, s, trace) && OwnSince(c, trace) == OwnSince(c, tm) + OwnSince(Call(c.t, m, tm), trace)
  {
    hide Inv, Runs, After, Kept;
    var ls, ms := tm[|c.trace|..], trace[|tm|..];
    assert trace == tm + ms;
    assert trace[|c.trace|..] == ls + ms;
    RunsConcat(c.s, ls, ms);
    OwnConcat(ls, ms, c.t);
    KeptTrans(c.s.c, m.c, s.c);
  }

  // ---- what a load in between may have read ----

  /** Write `k` of `strong` is one that `t` may read between `a` and `b`. */
  predicate MayReadS(a: Core, b: Core, t: Tid, k: nat) { t in a.cur && a.cur[t].s <= k < |b.strong| }

  predicate MayReadW(a: Core, b: Core, t: Tid, k: nat) { t in a.cur && a.cur[t].w <= k < |b.weak| }

  /** Such a write holds something else than 1; or 0; or more than the counters are allowed. */
  ghost predicate ReadsOther(a: Core, b: Core, t: Tid) { exists k: nat :: MayReadS(a, b, t, k) && b.strong[k].val != 1 }

  ghost predicate ReadsOtherW(a: Core, b: Core, t: Tid) { exists k: nat :: MayReadW(a, b, t, k) && b.weak[k].val != 1 }

  ghost predicate ReadsZero(a: Core, b: Core, t: Tid) { exists k: nat :: MayReadS(a, b, t, k) && b.strong[k].val == 0 }

  ghost predicate ReadsTooMany(a: Core, b: Core, t: Tid) {
    exists k: nat :: MayReadS(a, b, t, k) && b.strong[k].val > MAX_REFCOUNT
  }

  ghost predicate ReadsTooManyW(a: Core, b: Core, t: Tid) {
    exists k: nat :: MayReadW(a, b, t, k) && MAX_REFCOUNT < b.weak[k].val != USIZE_MAX
  }

  lemma ReadOn(a: Core, m: Core, b: Core, t: Tid, k: nat)
    requires MayReadS(a, m, t, k) && Kept(m, b)
    ensures MayReadS(a, b, t, k) && b.strong[k] == m.strong[k]
  {
    assert b.strong[..|m.strong|][k] == m.strong[k];
  }

  lemma WeakReadOn(a: Core, m: Core, b: Core, t: Tid, k: nat)
    requires MayReadW(a, m, t, k) && Kept(m, b)
    ensures MayReadW(a, b, t, k) && b.weak[k] == m.weak[k]
  {
    assert b.weak[..|m.weak|][k] == m.weak[k];
  }

  // ---- the operations, as the steps they take ----

  predicate GetMutCall(own: seq<Label>, t: Tid, h: Hid) {
    (|own| == 1 && own[0].UqMiss? && own[0].t == t && own[0].h == h)
    || (|own| == 3 && own[0] == UqLock(t, h, true) && own[1].UqLoad? && own[1].t == t && own[2] == UqUnlock(t))
  }

  /** The end of `Weak::drop`: nothing more, or the deallocation. */
  predicate FreeCall(own: seq<Label>, t: Tid) { own == [] || own == [FenceWeak(t), Free(t)] }

  predicate TakeCall(own: seq<Label>, t: Tid) {
    |own| >= 2 && own[0] == Consume(t) && own[1] == DropImplicitWeak(t) && FreeCall(own[2..], t)
  }

  predicate FinishCall(own: seq<Label>, t: Tid) { |own| >= 1 && own[0] == FenceStrong(t) && TakeCall(own[1..], t) }

  /** `last`: the data goes too. */
  predicate DropCall(own: seq<Label>, t: Tid, h: Hid, into: bool, last: bool) {
    |own| >= 1 && own[0] == DropArc(t, h, into) && if last then FinishCall(own[1..], t) else own[1..] == []
  }

  predicate DropWeakCall(own: seq<Label>, t: Tid, w: Hid) { |own| >= 1 && own[0] == DropWeak(t, w) && FreeCall(own[1..], t) }

  /** `try_unwrap` up to its answer, and as a whole. */
  predicate UnwrapCall(own: seq<Label>, t: Tid, h: Hid) {
    |own| == 1 && ((own[0].UnwrapMiss? && own[0].t == t && own[0].h == h) || own[0] == UnwrapOk(t, h))
  }

  predicate UnwrapWhole(own: seq<Label>, t: Tid, h: Hid, ok: bool) {
    |own| >= 1 && UnwrapCall(own[..1], t, h) && (ok <==> own[0].UnwrapOk?) && if ok then FinishCall(own[1..], t) else |own| == 1
  }

  /** `make_mut` up to its decision. */
  predicate MakeMutCall(own: seq<Label>, t: Tid, h: Hid) {
    (|own| == 1 && own[0].MakeMutMiss? && own[0].t == t && own[0].h == h)
    || (|own| == 2 && own[0] == MakeMutTake(t, h) && own[1].WindowLoad? && own[1].t == t)
  }

  /** How `make_mut` ended: with this allocation, with another one into which the data was moved or
      cloned, by the panic of a clone, or not at all because another thread aborted the process. */
  datatype MakeMutEnd = InPlace | Moved | Cloned | Unwound | Stopped

  predicate MakeMutWhole(own: seq<Label>, t: Tid, h: Hid, end: MakeMutEnd) {
    match end
    case InPlace => |own| == 3 && own[0].MakeMutTake? && MakeMutCall(own[..2], t, h) && own[2] == RestoreStrong(t)
    case Moved => |own| >= 2 && own[0].MakeMutTake? && MakeMutCall(own[..2], t, h) && TakeCall(own[2..], t)
    case Cloned => |own| >= 2 && MakeMutCall(own[..1], t, h) && own[1] == CloneData(t)
                   && exists last :: DropCall(own[2..], t, h, false, last)
    case Unwound => |own| == 2 && MakeMutCall(own[..1], t, h) && own[1] == CloneUnwinds(t)
    case Stopped => true
  }

  lemma Miss(own: seq<Label>, t: Tid, h: Hid, k: nat, rest: seq<Label>)
    requires own == [MakeMutMiss(t, h, k)] + rest
    ensures rest == [CloneUnwinds(t)] ==> MakeMutWhole(own, t, h, Unwound)
    ensures forall tail, last :: rest == [CloneData(t)] + tail && DropCall(tail, t, h, false, last) ==> MakeMutWhole(own, t, h, Cloned)
  {
    hide DropCall;
    assert own[..1] == [MakeMutMiss(t, h, k)];
    forall tail, last | rest == [CloneData(t)] + tail && DropCall(tail, t, h, false, last) ensures MakeMutWhole(own, t, h, Cloned) {
      assert own[2..] == tail;
    }
  }

  lemma Take(own: seq<Label>, t: Tid, h: Hid, k: nat, rest: seq<Label>)
    requires own == [MakeMutTake(t, h), WindowLoad(t, k)] + rest
    ensures rest == [RestoreStrong(t)] ==> MakeMutWhole(own, t, h, InPlace)
    ensures TakeCall(rest, t) ==> MakeMutWhole(own, t, h, Moved)
  {
    hide TakeCall;
    assert own[..2] == [MakeMutTake(t, h), WindowLoad(t, k)] && own[2..] == rest;
  }

  /** How a compare-exchange loop ended: with a handle, with `None`, with the overflow panic, or
      not yet (or because another thread aborted the process). */
  datatype LoopEnd = Made(handle: Hid) | Refused | Overflow | Unfinished

  /** The loop of `upgrade`: a load, and failed exchanges. */
  predicate UpLoop(own: seq<Label>, t: Tid, w: Hid) {
    && |own| >= 1 && own[0].UpStart? && own[0].t == t && own[0].w == w
    && forall i :: 1 <= i < |own| ==> own[i].UpRetry? && own[i].t == t
  }

  /** `upgrade` with at most `tries` exchanges, as it ended. */
  predicate UpgradeCall(own: seq<Label>, t: Tid, w: Hid, tries: nat, r: LoopEnd) {
    1 <= |own| <= tries + 1 &&
    match r
    case Made(_) => UpLoop(own[..|own| - 1], t, w) && own[|own| - 1] == UpOk(t)
    case Overflow => UpLoop(own[..|own| - 1], t, w) && own[|own| - 1] == UpPanic(t)
    case Refused => UpLoop(own, t, w)
    case Unfinished => UpLoop(own, t, w) && |own| == tries + 1
  }

  lemma UpLoopBegins(t: Tid, w: Hid, k: nat)
    ensures UpLoop([UpStart(t, w, k)], t, w)
  {
  }

  lemma UpLoopOn(own: seq<Label>, t: Tid, w: Hid, l: Label)
    requires UpLoop(own, t, w)
    ensures l.UpRetry? && l.t == t ==> UpLoop(own + [l], t, w)
    ensures l == UpOk(t) ==> forall h :: UpgradeCall(own + [l], t, w, |own|, Made(h))
    ensures l == UpPanic(t) ==> UpgradeCall(own + [l], t, w, |own|, Overflow)
  {
    assert (own + [l])[..|own + [l]| - 1] == own;
  }

  predicate DownLoop(own: seq<Label>, t: Tid, h: Hid) {
    && |own| >= 1 && own[0].DownStart? && own[0].t == t && own[0].h == h
    && forall i :: 1 <= i < |own| ==> (own[i].DownSpin? || own[i].DownRetry?) && own[i].t == t
  }

  predicate DowngradeCall(own: seq<Label>, t: Tid, h: Hid, tries: nat, r: LoopEnd) {
    1 <= |own| <= tries + 1 &&
    match r
    case Made(_) => DownLoop(own[..|own| - 1], t, h) && own[|own| - 1] == DownOk(t)
    case Overflow => DownLoop(own[..|own| - 1], t, h) && own[|own| - 1] == DownPanic(t)
    case Refused => false
    case Unfinished => DownLoop(own, t, h) && |own| == tries + 1
  }

  lemma DownLoopBegins(t: Tid, h: Hid, k: nat)
    ensures DownLoop([DownStart(t, h, k)], t, h)
  {
  }

  lemma DownLoopOn(own: seq<Label>, t: Tid, h: Hid, l: Label)
    requires DownLoop(own, t, h)
    ensures (l.DownSpin? || l.DownRetry?) && l.t == t ==> DownLoop(own + [l], t, h)
    ensures l == DownOk(t) ==> forall w :: DowngradeCall(own + [l], t, h, |own|, Made(w))
    ensures l == DownPanic(t) ==> DowngradeCall(own + [l], t, h, |own|, Overflow)
  {
    assert (own + [l])[..|own + [l]| - 1] == own;
  }

  /** `Weak::weak_count` that read write `k` of `weak` and write `m` of `strong`. */
  predicate CountedBy(own: seq<Label>, t: Tid, w: Hid, a: Core, b: Core, n: int, k: nat, m: nat) {
    && own == [CountStart(t, w, k), CountEnd(t, m)] && MayReadW(a, a, t, k) && MayReadS(a, b, t, m)
    && n == if b.strong[m].val == 0 then 0 else |a.weak[k].live|
  }

  // ---- calls that cannot fail ----

  predicate IsAt(s: State, t: Tid, p: Pc) { t in s.pc && s.pc[t] == p }

  /** However the call goes, and whatever other threads do meanwhile, it leaves `t` at `p`. */
  ghost predicate GetMutAlways(s: State, t: Tid, h: Hid) {
    forall ls :: Runs(s, ls) && GetMutCall(Own(ls, t), t, h) ==> IsAt(After(s, ls), t, Mut(h))
  }

  ghost predicate MakeMutAlways(s: State, t: Tid, h: Hid) {
    forall ls :: Runs(s, ls) && MakeMutCall(Own(ls, t), t, h) ==> IsAt(After(s, ls), t, Restore(h))
  }

  ghost predicate UnwrapAlways(s: State, t: Tid, h: Hid) {
    forall ls :: Runs(s, ls) && UnwrapCall(Own(ls, t), t, h) ==> IsAt(After(s, ls), t, Fencing(h, KUnwrap))
  }

  lemma GetMutDid(c: Call, h: Hid, s: State, trace: seq<Label>)
    requires Did(c, s, trace) && GetMutCall(OwnSince(c, trace), c.t, h) && GetMutAlways(c.s, c.t, h)
    ensures IsAt(s, c.t, Mut(h))
  {
    hide Inv, Runs, After, GetMutCall, Kept;
  }

  lemma MakeMutDid(c: Call, h: Hid, s: State, trace: seq<Label>)
    requires Did(c, s, trace) && MakeMutCall(OwnSince(c, trace), c.t, h) && MakeMutAlways(c.s, c.t, h)
    ensures IsAt(s, c.t, Restore(h))
  {
    hide Inv, Runs, After, MakeMutCall, Kept;
  }

  lemma UnwrapDid(c: Call, h: Hid, s: State, trace: seq<Label>)
    requires Did(c, s, trace) && UnwrapCall(OwnSince(c, trace), c.t, h) && UnwrapAlways(c.s, c.t, h)
    ensures IsAt(s, c.t, Fencing(h, KUnwrap))
  {
    hide Inv, Runs, After, UnwrapCall, Kept;
  }
}
