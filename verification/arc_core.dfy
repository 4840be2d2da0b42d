/** The core transitions of the protocol: handles lent and given back, counters moved, the weak
    lock taken and released. A step of the program is one of these plus a program counter. */
module ArcCore {
  import opened Common
  import opened ArcState

  // ---- handles move between threads; passing a reference on always synchronises ----

  function Learn(c: Core, t: Tid, v: View): Core
    requires t in c.cur
  {
    c.(cur := c.cur[t := Join(c.cur[t], v)])
  }

  function Share(c: Core, v: Via, t: Tid, u: Tid): Core
    requires MayUse(c, v, t) && t in c.cur && u in c.cur
  {
    var d := Learn(c, u, c.cur[t]);
    match v
    case Root(h) => d.(roots := d.roots[h := d.roots[h] + {u}])
    case Wk(h) => d.(weaks := d.weaks[h := d.weaks[h] + {u}])
  }

  function GiveBack(c: Core, v: Via, t: Tid, u: Tid): Core
    requires MayUse(c, v, t) && MayUse(c, v, u) && t != u && t in c.cur && u in c.cur
  {
    var d := Learn(c, u, c.cur[t]);
    match v
    case Root(h) => d.(roots := d.roots[h := d.roots[h] - {t}])
    case Wk(h) => d.(weaks := d.weaks[h := d.weaks[h] - {t}])
  }

  // ---- loads ----

  function LoadS(c: Core, t: Tid, via: Via, k: nat, acquire: bool): Core
    requires t in c.cur && t in c.acq && k < |c.strong|
  {
    Perform(Pend(c, t, c.strong[k].view), t, via, ReadS(c, t, k, acquire))
  }

  function LoadW(c: Core, t: Tid, via: Via, k: nat, acquire: bool): Core
    requires t in c.cur && t in c.acq && k < |c.weak|
  {
    Perform(Pend(c, t, c.weak[k].view), t, via, ReadW(c, t, k, acquire))
  }

  function Fence(c: Core, t: Tid): Core
    requires t in c.cur && t in c.acq
  {
    var d := Learn(c, t, c.acq[t]);
    if c.phase.Held? && c.phase.t == t then d.(phase := Held(t, true)) else d
  }

  // ---- the data ----

  function Use(c: Core, t: Tid, h: Hid, write: bool): Core
    requires t in c.cur
  {
    var e := |c.src|;
    Perform(c, t, Root(h), c.cur[t]).(uses := c.uses + {e}, writes := if write then c.writes + {e} else c.writes)
  }

  // ---- the strong count ----

  function IncS(c: Core, t: Tid, via: Via, acquire: bool): Core
    requires |c.strong| > 0 && t in c.cur && t in c.acq
  {
    var g := c.nextH;
    RmwS(c, t, via, acquire, false, WrapInc(LastS(c).val), c.roots.Keys + {g})
      .(roots := c.roots[g := {t}], nextH := g + 1)
  }

  /** `h` gives up its strong count; whoever takes the count to 0 keeps the implicit weak reference. */
  function DecS(c: Core, t: Tid, h: Hid, acquire: bool, release: bool): Core
    requires |c.strong| > 0 && t in c.cur && t in c.acq
  {
    var was := LastS(c).val;
    var d := RmwS(c, t, Root(h), acquire, release, WrapDec(was), c.roots.Keys - {h});
    if was == 1 then d.(phase := Held(t, acquire)) else d.(roots := c.roots - {h})
  }

  /** `strong.store(1, Release)` in `make_mut` and `UniqueArc::into_arc`. */
  function StoreOne(c: Core, t: Tid, h: Hid): Core
    requires t in c.cur
  {
    StoreS(c, t, Root(h), 1, {h}).(phase := Counted)
  }

  /** `strong.fetch_add(1, Release)` in `new_cyclic`. */
  function AddOne(c: Core, t: Tid, h: Hid): Core
    requires |c.strong| > 0 && t in c.cur && t in c.acq
  {
    RmwS(c, t, Root(h), false, true, WrapInc(LastS(c).val), {h}).(phase := Counted)
  }

  /** Dropping a `UniqueArc` leaves `strong` alone: the thread goes straight to the destructor. */
  function TakeUnique(c: Core, t: Tid): Core { c.(phase := Held(t, true)) }

  // ---- the weak count ----

  function IncW(c: Core, t: Tid, via: Via, acquire: bool): Core
    requires |c.weak| > 0 && t in c.cur && t in c.acq
  {
    var g := c.nextH;
    RmwW(c, t, via, acquire, false, WrapInc(LastW(c).val), c.weaks.Keys + {g}, LastW(c).implicit, false)
      .(weaks := c.weaks[g := {t}], nextH := g + 1)
  }

  function DecW(c: Core, t: Tid, w: Hid): Core
    requires |c.weak| > 0 && t in c.cur && t in c.acq
  {
    RmwW(c, t, Wk(w), false, true, WrapDec(LastW(c).val), c.weaks.Keys - {w}, LastW(c).implicit, false)
      .(weaks := c.weaks - {w})
  }

  /** Drop the implicit weak reference held through root `h`. */
  function DropImplicit(c: Core, t: Tid, h: Hid): Core
    requires |c.weak| > 0 && t in c.cur && t in c.acq
  {
    RmwW(c, t, Root(h), false, true, WrapDec(LastW(c).val), c.weaks.Keys, false, false)
      .(roots := map[], phase := Released)
  }

  function LockW(c: Core, t: Tid, h: Hid): Core
    requires |c.weak| > 0 && t in c.cur && t in c.acq
  {
    RmwW(c, t, Root(h), true, false, USIZE_MAX, {}, true, true).(lock := Some(t))
  }

  function UnlockW(c: Core, t: Tid, h: Hid): Core
    requires t in c.cur
  {
    StoreW(c, t, Root(h), 1, {}, true, false).(lock := None)
  }

  // =====================================================================================
  // The invariant
  // =====================================================================================

  ghost predicate Shape(c: Core) {
    && |c.strong| > 0 && |c.weak| > 0 && c.cur.Keys == c.acq.Keys
    && (forall h :: h in c.roots ==> c.roots[h] != {} && c.roots[h] <= c.cur.Keys && h < c.nextH)
    && (forall h :: h in c.weaks ==> c.weaks[h] != {} && c.weaks[h] <= c.cur.Keys && h < c.nextH)
    && c.roots.Keys !! c.weaks.Keys
    && (forall e :: 0 <= e < |c.src| ==> c.src[e].h < c.nextH)
    && c.writes <= c.uses && (forall e :: e in c.uses ==> e < |c.src| && c.src[e].Root?)
    && PhaseOk(c)
  }

  ghost predicate PhaseOk(c: Core) {
    && (c.lock.Some? ==> c.phase.Counted? && c.weaks == map[] && c.lock.value in c.cur)
    && match c.phase
       case Counted => c.roots != map[]
       case Released => c.roots == map[]
       case Held(t, f) => t in c.cur && |c.roots| == 1 && forall h :: h in c.roots ==> c.roots[h] == {t}
       case _ => |c.roots| == 1 && |c.strong| == 1 && c.strong[0].view == View(0, 0, {})
  }

  /** A view speaks only of writes that exist, and knows its own position in both orders. */
  ghost predicate Good(c: Core, v: View) {
    && v.s < |c.strong| && v.w < |c.weak| && (forall e :: e in v.ev ==> e < |c.src|)
    && (forall k :: 0 <= k < |c.strong| && c.strong[k].id in v.ev ==> k <= v.s)
    && (forall k :: 0 <= k < |c.weak| && c.weak[k].id in v.ev ==> k <= v.w)
  }

  ghost predicate Views(c: Core) {
    && (forall t :: t in c.cur ==> Good(c, c.cur[t]))
    && (forall t :: t in c.acq ==> Good(c, c.acq[t]))
    && (forall k :: 0 <= k < |c.strong| ==> Good(c, c.strong[k].view))
    && (forall k :: 0 <= k < |c.weak| ==> Good(c, c.weak[k].view))
  }

  /** No write repeats the value before it. */
  ghost predicate SStep(a: SEntry, b: SEntry) {
    a.val != b.val && match b.via
    case Root(h) => (a.live == {} && b.live == {h})
                 || (h in a.live && (a.live <= b.live || b.live == a.live - {h}))
    case Wk(w) => a.live != {} && a.live <= b.live
  }

  ghost predicate StrongOk(c: Core) {
    && |c.strong| > 0
    && (forall k :: 0 <= k < |c.strong| ==> c.strong[k].val == |c.strong[k].live| && c.strong[k].id < |c.src|)
    && (forall k :: 0 < k < |c.strong| ==> c.src[c.strong[k].id] == c.strong[k].via)
    && (forall k :: 0 < k < |c.strong| ==> SStep(c.strong[k - 1], c.strong[k]))
    && LastS(c).live == Live(c)
  }

  ghost predicate WStep(a: WEntry, b: WEntry) {
    a.val != b.val && match b.via
    case Root(h) => a.implicit
    case Wk(w) => w in a.live && !a.locked
  }

  ghost predicate WVal(a: WEntry) {
    if a.locked then a.val == USIZE_MAX && a.live == {} && a.implicit
    else a.val == |a.live| + if a.implicit then 1 else 0
  }

  ghost predicate WeakOk(c: Core) {
    && |c.weak| > 0
    && (forall k :: 0 <= k < |c.weak| ==> WVal(c.weak[k]) && c.weak[k].id < |c.src|)
    && (forall k :: 0 < k < |c.weak| ==> c.src[c.weak[k].id] == c.weak[k].via)
    && (forall k :: 0 < k < |c.weak| ==> WStep(c.weak[k - 1], c.weak[k]))
    && LastW(c).live == c.weaks.Keys && LastW(c).implicit == !c.phase.Released?
    && LastW(c).locked == c.lock.Some?
    && (forall k :: 0 <= k < |c.weak| ==> c.weak[k].implicit || (c.phase.Released? && |c.strong| - 1 <= c.weak[k].view.s))
  }

  /** A handle is counted in every write its users can still read. */
  ghost predicate Seen(c: Core) {
    && (c.phase.Counted? ==> forall h, t, k :: MayUse(c, Root(h), t) && t in c.cur && c.cur[t].s <= k < |c.strong| ==>
          h in c.strong[k].live)
    && (forall w, t, k :: MayUse(c, Wk(w), t) && t in c.cur && c.cur[t].w <= k < |c.weak| ==> w in c.weak[k].live)
  }

  /** Every event is known to a user of the handle it was performed through or, once that handle
      is gone, is passed on by the counter it was counted in. */
  ghost predicate Covered(c: Core, e: nat)
    requires |c.strong| > 0 && |c.weak| > 0 && e < |c.src|
  {
    if c.src[e].h in (if c.src[e].Root? then c.roots.Keys else c.weaks.Keys) then
      exists t :: MayUse(c, c.src[e], t) && Knows(c, t, e)
    else if c.src[e].Root? && !c.phase.Released? then e in LastS(c).view.ev
    else e in LastW(c).view.ev
  }

  ghost predicate Cov(c: Core)
    requires |c.strong| > 0 && |c.weak| > 0
  {
    forall e :: 0 <= e < |c.src| ==> Covered(c, e)
  }

  /** What the lock holder, and the thread that took `strong` to 0, have acquired. */
  ghost predicate Holder(c: Core)
    requires |c.strong| > 0 && |c.weak| > 0
  {
    && (c.lock.Some? ==> c.lock.value in c.cur && Leq(LastW(c).view, c.cur[c.lock.value])
                         && c.cur[c.lock.value].w == |c.weak| - 1)
    && (c.phase.Held? ==> c.phase.t in c.cur && c.phase.t in c.acq
                          && c.cur[c.phase.t].s == |c.strong| - 1
                          && Leq(LastS(c).view, if c.phase.fenced then c.cur[c.phase.t]
                                                else Join(c.cur[c.phase.t], c.acq[c.phase.t])))
    && (c.phase.Released? ==> Leq(LastS(c).view, LastW(c).view))
  }

  /** Every write to the data is known wherever the data can be reached from. */
  ghost predicate Visible(c: Core)
    requires |c.strong| > 0
  {
    && (forall h, t :: MayUse(c, Root(h), t) && t in c.cur ==> c.writes <= c.cur[t].ev)
    && (c.phase.Counted? ==>
          forall w, t :: MayUse(c, Wk(w), t) && t in c.cur ==> c.writes <= c.cur[t].ev + LastS(c).view.ev)
  }

  ghost predicate CoreInv(c: Core) {
    Shape(c) && Views(c) && StrongOk(c) && WeakOk(c) && Seen(c) && Cov(c) && Holder(c) && Visible(c)
  }

  // ---- the claims the protocol rests on ----

  lemma SoleElement<T>(s: set<T>, x: T)
    requires |s| == 1 && x in s
    ensures s == {x}
  {
    if y :| y in s && y != x {
      CardMono({x, y}, s);
    }
  }

  /** If `h` was the only counted `Arc` at some write and is still counted at the next one, then
      the lone user of `h` that holds the weak lock has observed that next write. */
  lemma LockerKnowsNext(c: Core, t: Tid, h: Hid, k: nat)
    requires StrongOk(c) && WeakOk(c) && Views(c) && Cov(c) && Holder(c)
    requires c.phase.Counted? && c.lock == Some(t) && c.weaks == map[]
    requires h in c.roots && c.roots[h] == {t}
    requires k + 1 < |c.strong| && c.strong[k].live == {h} && h in c.strong[k + 1].live
    ensures k + 1 <= c.cur[t].s
  {
    var n := c.strong[k + 1];
    assert SStep(c.strong[k], n);
    assert Covered(c, n.id) && c.src[n.id] == n.via;
    assert n.via.Root? ==> n.via.h == h;
    assert n.id in c.cur[t].ev;
    assert Good(c, c.cur[t]);
  }

  /** A thread that alone uses a counted handle, holds the weak lock, and reads 1 from `strong`
      has read the newest write: no other `Arc` exists. */
  lemma UniqueLoadIsExact(c: Core, t: Tid, h: Hid, k: nat)
    requires CoreInv(c) && c.phase.Counted?
    requires c.lock == Some(t) && h in c.roots && c.roots[h] == {t}
    requires c.cur[t].s <= k < |c.strong| && c.strong[k].val == 1
    ensures k == |c.strong| - 1 && c.roots == map[h := {t}]
  {
    assert MayUse(c, Root(h), t);
    assert h in c.strong[k].live;
    SoleElement(c.strong[k].live, h);
    if k < |c.strong| - 1 {
      LockerKnowsNext(c, t, h, k);
    }
    assert c.roots.Keys == {h};
  }

  /** After a write that takes the lock, or that counts no `Weak` handle, the next write to `weak`
      has been observed by the thread that took `strong` to 0 and acquired the others' releases. */
  lemma KeeperKnowsNext(c: Core, t: Tid, k: nat)
    requires PhaseOk(c) && WeakOk(c) && Views(c) && |c.strong| > 0 && Cov(c)
    requires c.phase == Held(t, true) && LastS(c).view.ev <= c.cur[t].ev
    requires k + 1 < |c.weak| && c.weak[k].live == {}
    ensures k + 1 <= c.cur[t].w
  {
    var n := c.weak[k + 1];
    assert WStep(c.weak[k], n);
    assert Covered(c, n.id) && c.src[n.id] == n.via;
    assert n.id in c.cur[t].ev;
    assert Good(c, c.cur[t]);
  }

  /** The thread that took `strong` to 0 and has acquired the strong handles' releases: a relaxed
      load of `weak` never shows it the lock, and reading 1 means no `Weak` handle exists. */
  lemma WindowLoadIsExact(c: Core, t: Tid, k: nat)
    requires CoreInv(c) && c.phase == Held(t, true)
    requires c.cur[t].w <= k < |c.weak|
    ensures !c.weak[k].locked
    ensures c.weak[k].val == 1 ==> k == |c.weak| - 1 && c.weaks == map[]
  {
    hide Seen, Visible, StrongOk, WStep;
    assert WVal(c.weak[k]) && c.weak[k].implicit;
    if k < |c.weak| - 1 && c.weak[k].live == {} {
      KeeperKnowsNext(c, t, k);
    }
  }

  /** A user of a `Weak` handle never reads the lock, and never reads a weak count below 1. */
  lemma WeakUserLoad(c: Core, w: Hid, t: Tid, k: nat)
    requires Seen(c) && WeakOk(c) && t in c.cur && MayUse(c, Wk(w), t) && c.cur[t].w <= k < |c.weak|
    ensures !c.weak[k].locked && c.weak[k].val >= 1
  {
    assert w in c.weak[k].live;
    assert WVal(c.weak[k]);
    CardMono({w}, c.weak[k].live);
  }
}
