/** The program: every atomic operation of `Arc`, `Weak`, `UniqueArc` and `new_cyclic` on one
    allocation is one step of a thread. */
module ArcSteps {
  import opened Common
  import opened ArcState
  import opened ArcCore

  /** Why `strong` was taken to 0. */
  datatype Kind = KDrop | KUnwrap | KInto | KSteal

  datatype Pc =
    | Idle
    | Down(h: Hid, n: nat)                           // the loop of `downgrade`, having read n
    | UqLocked(h: Hid, excl: bool)                   // `is_unique`, `weak` locked
    | UqLoaded(h: Hid, excl: bool, uniq: bool)       // ... and `strong` loaded
    | Mut(h: Hid)                                    // a `&mut T` is lent out
    | CloneOut(h: Hid) | DropOld(h: Hid)             // `make_mut` when other `Arc`s exist
    | Window(h: Hid) | Restore(h: Hid)               // `make_mut` with `strong` at 0
    | Fencing(h: Hid, kind: Kind)                    // the last strong handle, before its fence
    | Consuming(h: Hid, kind: Kind)                  // ... before the data is dropped or moved out
    | Releasing(h: Hid, kind: Kind)                  // ... before the implicit weak is dropped
    | Up(w: Hid, n: nat)                             // the loop of `upgrade`, having read n
    | Counting(w: Hid, n: nat, truth: nat)           // `Weak::weak_count`, `weak` loaded
    | FreeFencing | Freeing                          // the last weak handle
    | CycReady(b: Hid)                               // `new_cyclic`, data written
    | Aborting

  datatype Data = Uninit | Whole | Gone

  /** `nones`: the `Weak` handles whose `upgrade` has returned `None`, and clones made from them.
      `fromNew`: made by `Arc::new`. `intoOnly`: strong handles have so far only been given up by
      `into_inner`; `returned`: the `into_inner` calls that returned the value. `overS`, `overW`:
      threads between an over-limit increment and its abort. `counted`: the last result of
      `Weak::weak_count` and the number of `Weak` handles at its load of `weak`. */
  datatype State = State(
    c: Core, pc: map<Tid, Pc>, data: Data, consumed: nat, freed: nat,
    overS: set<Tid>, overW: set<Tid>, aborted: bool,
    nones: set<Hid>, fromNew: bool, intoOnly: bool, returned: nat, counted: (int, nat))

  datatype Label =
    | Lend(t: Tid, u: Tid, v: Via) | GiveBackTo(t: Tid, u: Tid, v: Via) | Sync(t: Tid, u: Tid)
    | PeekStrong(t: Tid, v: Via, k: nat) | PeekWeak(t: Tid, v: Via, k: nat)
    | Clone(t: Tid, h: Hid) | Abort(t: Tid)
    | DownStart(t: Tid, h: Hid, k: nat) | DownSpin(t: Tid, k: nat) | DownPanic(t: Tid)
    | DownOk(t: Tid) | DownRetry(t: Tid, k: nat)
    | UqLock(t: Tid, h: Hid, excl: bool) | UqMiss(t: Tid, h: Hid, k: nat)
    | UqLoad(t: Tid, k: nat) | UqUnlock(t: Tid)
    | ReadData(t: Tid, h: Hid) | MutWrite(t: Tid) | MutEnd(t: Tid)
    | DropArc(t: Tid, h: Hid, into: bool)
    | UnwrapOk(t: Tid, h: Hid) | UnwrapMiss(t: Tid, h: Hid, k: nat)
    | MakeMutTake(t: Tid, h: Hid) | MakeMutMiss(t: Tid, h: Hid, k: nat)
    | CloneData(t: Tid) | CloneUnwinds(t: Tid)
    | WindowLoad(t: Tid, k: nat) | RestoreStrong(t: Tid)
    | FenceStrong(t: Tid) | Consume(t: Tid) | DropImplicitWeak(t: Tid)
    | UpStart(t: Tid, w: Hid, k: nat) | UpPanic(t: Tid) | UpOk(t: Tid) | UpRetry(t: Tid, k: nat)
    | CloneWeak(t: Tid, v: Via) | DropWeak(t: Tid, w: Hid)
    | CountStart(t: Tid, w: Hid, k: nat) | CountEnd(t: Tid, k: nat)
    | FenceWeak(t: Tid) | Free(t: Tid)
    | WriteUnique(t: Tid, b: Hid) | IntoArc(t: Tid, b: Hid) | DropUnique(t: Tid, b: Hid)
    | CycInit(t: Tid, b: Hid) | CycPublish(t: Tid) | CycUnwinds(t: Tid, b: Hid)

  // ---- initial states ----

  function Start(threads: set<Tid>, t: Tid, strong: nat, phase: Phase, data: Data, fromNew: bool): State {
    var v := View(0, 0, {0});
    var init := if data.Whole? then {0} else {};
    State(
      Core([SEntry(strong, View(0, 0, {}), if strong == 1 then {0} else {}, Root(0), 0)],
           [WEntry(1, View(0, 0, {}), {}, true, false, Root(0), 0)],
           map u | u in threads :: if u == t then v else View(0, 0, {}),
           map u | u in threads :: View(0, 0, {}),
           phase, None, map[0 := {t}], map[], 1, [Root(0)], init, init),
      map u | u in threads :: Idle, data, 0, 0, {}, {}, false, {}, fromNew, true, 0, (0, 0))
  }

  /** `Arc::new`, `UniqueArc::new_in`, and `new_cyclic_in` when it calls its closure. */
  function ArcNew(threads: set<Tid>, t: Tid): State { Start(threads, t, 1, Counted, Whole, true) }

  function UniqueNew(threads: set<Tid>, t: Tid): State { Start(threads, t, 0, UniqueB, Whole, false) }

  function CyclicNew(threads: set<Tid>, t: Tid): State { Start(threads, t, 0, CyclicB, Uninit, false) }

  // ---- steps ----

  predicate Sane(s: State) {
    |s.c.strong| > 0 && |s.c.weak| > 0 && s.c.cur.Keys == s.c.acq.Keys == s.pc.Keys
  }

  predicate At(s: State, t: Tid) { t in s.pc && t in s.c.cur && t in s.c.acq }

  predicate IdleAt(s: State, t: Tid) { At(s, t) && s.pc[t] == Idle }

  /** `k` is a write of `strong` that `t` may still read. */
  predicate CanReadS(s: State, t: Tid, k: nat)
    requires At(s, t)
  {
    s.c.cur[t].s <= k < |s.c.strong|
  }

  predicate CanReadW(s: State, t: Tid, k: nat)
    requires At(s, t)
  {
    s.c.cur[t].w <= k < |s.c.weak|
  }

  predicate Owns(s: State, t: Tid, h: Hid) { h in s.c.roots && s.c.roots[h] == {t} }

  predicate IsArc(s: State, t: Tid, h: Hid) { s.c.phase.Counted? && MayUse(s.c, Root(h), t) }

  /** Accesses to the data, and what the owner of an `Arc` does with it. */
  predicate OfOwner(l: Label) {
    l.ReadData? || l.MutWrite? || l.MutEnd? || l.DropArc? || l.UnwrapOk? || l.UnwrapMiss? || l.MakeMutTake?
    || l.MakeMutMiss? || l.CloneData? || l.CloneUnwinds? || l.WindowLoad? || l.RestoreStrong?
  }

  /** The end of the data's life, the operations of `Weak`, and those under construction. */
  predicate Late(l: Label) {
    l.FenceStrong? || l.Consume? || l.DropImplicitWeak? || l.UpStart? || l.UpPanic? || l.UpOk? || l.UpRetry?
    || l.CloneWeak? || l.DropWeak? || l.CountStart? || l.CountEnd? || l.FenceWeak? || l.Free?
    || l.WriteUnique? || l.IntoArc? || l.DropUnique? || l.CycInit? || l.CycPublish? || l.CycUnwinds?
  }

  predicate Enabled(s: State, l: Label)
  {
    Sane(s) && !s.aborted && At(s, l.t) &&
    if OfOwner(l) then EnabledOwner(s, l) else if Late(l) then EnabledLate(s, l) else EnabledShared(s, l)
  }

  /** Handles lent, counters looked at, `clone`, `downgrade` and `is_unique`. */
  predicate EnabledShared(s: State, l: Label)
    requires Sane(s) && At(s, l.t)
  {
    match l
    case Lend(t, u, v) => IdleAt(s, t) && At(s, u) && MayUse(s.c, v, t)
    case GiveBackTo(t, u, v) => IdleAt(s, t) && At(s, u) && t != u && MayUse(s.c, v, t) && MayUse(s.c, v, u)
    case Sync(t, u) => At(s, u)
    case PeekStrong(t, v, k) => IdleAt(s, t) && MayUse(s.c, v, t) && CanReadS(s, t, k)
    case PeekWeak(t, v, k) => IdleAt(s, t) && MayUse(s.c, v, t) && CanReadW(s, t, k)
    case Clone(t, h) => IdleAt(s, t) && IsArc(s, t, h)
    case Abort(t) => s.pc[t].Aborting?
    case DownStart(t, h, k) => IdleAt(s, t) && IsArc(s, t, h) && CanReadW(s, t, k)
    case DownSpin(t, k) => s.pc[t].Down? && s.pc[t].n == USIZE_MAX && CanReadW(s, t, k)
    case DownPanic(t) => s.pc[t].Down? && s.pc[t].n != USIZE_MAX && s.pc[t].n > MAX_REFCOUNT
    case DownOk(t) => s.pc[t].Down? && s.pc[t].n <= MAX_REFCOUNT && LastW(s.c).val == s.pc[t].n
    case DownRetry(t, k) => s.pc[t].Down? && s.pc[t].n <= MAX_REFCOUNT && CanReadW(s, t, k)
    case UqLock(t, h, excl) => IdleAt(s, t) && IsArc(s, t, h) && (excl ==> Owns(s, t, h)) && LastW(s.c).val == 1
    case UqMiss(t, h, k) => IdleAt(s, t) && IsArc(s, t, h) && CanReadW(s, t, k) && s.c.weak[k].val != 1
    case UqLoad(t, k) => s.pc[t].UqLocked? && CanReadS(s, t, k)
    case UqUnlock(t) => s.pc[t].UqLoaded?
    case _ => false
  }

  predicate EnabledOwner(s: State, l: Label)
    requires Sane(s) && At(s, l.t)
  {
    match l
    case ReadData(t, h) => IdleAt(s, t) && MayUse(s.c, Root(h), t) && (s.c.phase.Counted? || s.c.phase.UniqueB?)
    case MutWrite(t) => s.pc[t].Mut?
    case MutEnd(t) => s.pc[t].Mut?
    case DropArc(t, h, into) => s.c.phase.Counted? && Owns(s, t, h) && (s.pc[t].Idle? || (s.pc[t] == DropOld(h) && !into))
    case UnwrapOk(t, h) => IdleAt(s, t) && s.c.phase.Counted? && Owns(s, t, h) && LastS(s.c).val == 1
    case UnwrapMiss(t, h, k) => IdleAt(s, t) && s.c.phase.Counted? && Owns(s, t, h) && CanReadS(s, t, k) && s.c.strong[k].val != 1
    case MakeMutTake(t, h) => IdleAt(s, t) && s.c.phase.Counted? && Owns(s, t, h) && LastS(s.c).val == 1
    case MakeMutMiss(t, h, k) => IdleAt(s, t) && s.c.phase.Counted? && Owns(s, t, h) && CanReadS(s, t, k) && s.c.strong[k].val != 1
    case CloneData(t) => s.pc[t].CloneOut?
    case CloneUnwinds(t) => s.pc[t].CloneOut?
    case WindowLoad(t, k) => s.pc[t].Window? && CanReadW(s, t, k)
    case RestoreStrong(t) => s.pc[t].Restore?
    case _ => false
  }

  predicate EnabledLate(s: State, l: Label)
    requires Sane(s) && At(s, l.t)
  {
    match l
    case FenceStrong(t) => s.pc[t].Fencing?
    case Consume(t) => s.pc[t].Consuming?
    case DropImplicitWeak(t) => s.pc[t].Releasing?
    case UpStart(t, w, k) => IdleAt(s, t) && MayUse(s.c, Wk(w), t) && CanReadS(s, t, k)
    case UpPanic(t) => s.pc[t].Up? && s.pc[t].n > MAX_REFCOUNT
    case UpOk(t) => s.pc[t].Up? && s.pc[t].n <= MAX_REFCOUNT && LastS(s.c).val == s.pc[t].n
    case UpRetry(t, k) => s.pc[t].Up? && s.pc[t].n <= MAX_REFCOUNT && CanReadS(s, t, k)
    case CloneWeak(t, v) => IdleAt(s, t) && MayUse(s.c, v, t) && (v.Root? ==> s.c.phase.UniqueB? || s.c.phase.CyclicB?)
    case DropWeak(t, w) => IdleAt(s, t) && w in s.c.weaks && s.c.weaks[w] == {t}
    case CountStart(t, w, k) => IdleAt(s, t) && MayUse(s.c, Wk(w), t) && CanReadW(s, t, k)
    case CountEnd(t, k) => s.pc[t].Counting? && CanReadS(s, t, k)
    case FenceWeak(t) => s.pc[t].FreeFencing?
    case Free(t) => s.pc[t].Freeing?
    case WriteUnique(t, b) => IdleAt(s, t) && s.c.phase.UniqueB? && Owns(s, t, b)
    case IntoArc(t, b) => IdleAt(s, t) && s.c.phase.UniqueB? && Owns(s, t, b)
    case DropUnique(t, b) => IdleAt(s, t) && s.c.phase.UniqueB? && Owns(s, t, b)
    case CycInit(t, b) => IdleAt(s, t) && s.c.phase.CyclicB? && Owns(s, t, b)
    case CycPublish(t) => s.pc[t].CycReady?
    case CycUnwinds(t, b) => IdleAt(s, t) && s.c.phase.CyclicB? && Owns(s, t, b)
    case _ => false
  }

  /** `s` with core `c` and thread `t` at `p`. */
  function Go(s: State, c: Core, t: Tid, p: Pc): State { s.(c := c, pc := s.pc[t := p]) }

  /** What `t` does after `upgrade` read the value `n` of `strong` through `w`. */
  function AfterUpRead(s: State, c: Core, t: Tid, w: Hid, n: nat): State {
    if n == 0 then Go(s, c, t, Idle).(nones := s.nones + {w}) else Go(s, c, t, Up(w, n))
  }

  /** Where a thread goes after giving up a weak count that stood at `n`. */
  function AfterWeakDrop(n: nat): Pc { if n == 1 then FreeFencing else Idle }

  /** The state after step `l`; a step that is not possible changes nothing. */
  function Next(s: State, l: Label): State {
    if !Enabled(s, l) then s
    else if OfOwner(l) then NextOwner(s, l) else if Late(l) then NextLate(s, l) else NextShared(s, l)
  }

  function NextShared(s: State, l: Label): State
    requires Sane(s) && At(s, l.t) && EnabledShared(s, l)
  {
    match l
    case Lend(t, u, v) => s.(c := Share(s.c, v, t, u))
    case GiveBackTo(t, u, v) => s.(c := GiveBack(s.c, v, t, u))
    case Sync(t, u) => s.(c := Learn(s.c, u, s.c.cur[t]))
    case PeekStrong(t, v, k) => s.(c := LoadS(s.c, t, v, k, false))
    case PeekWeak(t, v, k) => s.(c := LoadW(s.c, t, v, k, false))
    case Clone(t, h) =>
      if LastS(s.c).val > MAX_REFCOUNT
      then Go(s, IncS(s.c, t, Root(h), false), t, Aborting).(overS := s.overS + {t})
      else Go(s, IncS(s.c, t, Root(h), false), t, Idle)
    case Abort(t) => s.(aborted := true)
    case DownStart(t, h, k) => Go(s, LoadW(s.c, t, Root(h), k, false), t, Down(h, s.c.weak[k].val))
    case DownSpin(t, k) => Go(s, LoadW(s.c, t, Root(s.pc[t].h), k, false), t, Down(s.pc[t].h, s.c.weak[k].val))
    case DownPanic(t) => Go(s, s.c, t, Idle)
    case DownOk(t) => Go(s, IncW(s.c, t, Root(s.pc[t].h), true), t, Idle)
    case DownRetry(t, k) => Go(s, LoadW(s.c, t, Root(s.pc[t].h), k, false), t, Down(s.pc[t].h, s.c.weak[k].val))
    case UqLock(t, h, excl) => Go(s, LockW(s.c, t, h), t, UqLocked(h, excl))
    case UqMiss(t, h, k) => Go(s, LoadW(s.c, t, Root(h), k, false), t, Idle)
    case UqLoad(t, k) =>
      var p := s.pc[t];
      Go(s, LoadS(s.c, t, Root(p.h), k, true), t, UqLoaded(p.h, p.excl, s.c.strong[k].val == 1))
    case UqUnlock(t) =>
      var p := s.pc[t];
      Go(s, UnlockW(s.c, t, p.h), t, if p.excl && p.uniq then Mut(p.h) else Idle)
  }

  function NextOwner(s: State, l: Label): State
    requires Sane(s) && At(s, l.t) && EnabledOwner(s, l)
  {
    match l
    case ReadData(t, h) => s.(c := Use(s.c, t, h, false))
    case MutWrite(t) => s.(c := Use(s.c, t, s.pc[t].h, true))
    case MutEnd(t) => Go(s, s.c, t, Idle)
    case DropArc(t, h, into) =>
      var kind := if into then KInto else KDrop;
      Go(s, DecS(s.c, t, h, false, true), t, if LastS(s.c).val == 1 then Fencing(h, kind) else Idle)
        .(intoOnly := s.intoOnly && into)
    case UnwrapOk(t, h) => Go(s, DecS(s.c, t, h, false, false), t, Fencing(h, KUnwrap)).(intoOnly := false)
    case UnwrapMiss(t, h, k) => s.(c := LoadS(s.c, t, Root(h), k, false))
    case MakeMutTake(t, h) => Go(s, DecS(s.c, t, h, true, false), t, Window(h))
    case MakeMutMiss(t, h, k) => Go(s, LoadS(s.c, t, Root(h), k, false), t, CloneOut(h))
    case CloneData(t) => Go(s, Use(s.c, t, s.pc[t].h, false), t, DropOld(s.pc[t].h))
    case CloneUnwinds(t) => Go(s, s.c, t, Idle)
    case WindowLoad(t, k) =>
      var h := s.pc[t].h;
      Go(s, LoadW(s.c, t, Root(h), k, false), t, if s.c.weak[k].val != 1 then Consuming(h, KSteal) else Restore(h))
        .(intoOnly := s.intoOnly && s.c.weak[k].val == 1)
    case RestoreStrong(t) => Go(s, StoreOne(s.c, t, s.pc[t].h), t, Mut(s.pc[t].h))
  }

  function NextLate(s: State, l: Label): State
    requires Sane(s) && At(s, l.t) && EnabledLate(s, l)
  {
    match l
    case FenceStrong(t) => Go(s, Fence(s.c, t), t, Consuming(s.pc[t].h, s.pc[t].kind))
    case Consume(t) =>
      Go(s, Use(s.c, t, s.pc[t].h, true), t, Releasing(s.pc[t].h, s.pc[t].kind))
        .(data := Gone, consumed := s.consumed + 1)
    case DropImplicitWeak(t) =>
      Go(s, DropImplicit(s.c, t, s.pc[t].h), t, AfterWeakDrop(LastW(s.c).val))
        .(returned := if s.pc[t].kind == KInto then s.returned + 1 else s.returned)
    case UpStart(t, w, k) => AfterUpRead(s, LoadS(s.c, t, Wk(w), k, false), t, w, s.c.strong[k].val)
    case UpPanic(t) => Go(s, s.c, t, Idle)
    case UpOk(t) => Go(s, IncS(s.c, t, Wk(s.pc[t].w), true), t, Idle)
    case UpRetry(t, k) =>
      AfterUpRead(s, LoadS(s.c, t, Wk(s.pc[t].w), k, false), t, s.pc[t].w, s.c.strong[k].val)
    case CloneWeak(t, v) =>
      var d := s.(nones := if v.Wk? && v.h in s.nones then s.nones + {s.c.nextH} else s.nones);
      if LastW(s.c).val > MAX_REFCOUNT
      then Go(d, IncW(s.c, t, v, false), t, Aborting).(overW := s.overW + {t})
      else Go(d, IncW(s.c, t, v, false), t, Idle)
    case DropWeak(t, w) => Go(s, DecW(s.c, t, w), t, AfterWeakDrop(LastW(s.c).val))
    case CountStart(t, w, k) =>
      Go(s, LoadW(s.c, t, Wk(w), k, true), t, Counting(w, s.c.weak[k].val, |s.c.weak[k].live|))
    case CountEnd(t, k) =>
      var p := s.pc[t];
      Go(s, LoadS(s.c, t, Wk(p.w), k, false), t, Idle)
        .(counted := if s.c.strong[k].val == 0 then (0, 0) else (p.n as int - 1, p.truth))
    case FenceWeak(t) => Go(s, Fence(s.c, t), t, Freeing)
    case Free(t) => Go(s, s.c, t, Idle).(freed := s.freed + 1)
    case WriteUnique(t, b) => s.(c := Use(s.c, t, b, true))
    case IntoArc(t, b) => s.(c := StoreOne(s.c, t, b))
    case DropUnique(t, b) => Go(s, TakeUnique(s.c, t), t, Consuming(b, KDrop))
    case CycInit(t, b) => Go(s, Use(s.c, t, b, true), t, CycReady(b)).(data := Whole)
    case CycPublish(t) => Go(s, AddOne(s.c, t, s.pc[t].b), t, Idle)
    case CycUnwinds(t, b) => Go(s, DropImplicit(s.c, t, b), t, AfterWeakDrop(LastW(s.c).val))
  }

  // ---- a step of one group, without the others ----

  lemma SharedNext(s: State, l: Label)
    requires Enabled(s, l) && !OfOwner(l) && !Late(l)
    ensures Sane(s) && At(s, l.t) && EnabledShared(s, l) && Next(s, l) == NextShared(s, l)
  {
    hide EnabledLate, NextLate, EnabledOwner, NextOwner, EnabledShared, NextShared;
  }

  lemma LateNext(s: State, l: Label)
    requires Enabled(s, l) && Late(l)
    ensures Sane(s) && At(s, l.t) && EnabledLate(s, l) && Next(s, l) == NextLate(s, l)
  {
    hide EnabledLate, NextLate, EnabledOwner, NextOwner, EnabledShared, NextShared;
  }
}
