/** Every write to `weak` keeps the core invariant. */
module ArcWeakKeeps {
  import opened Common
  import opened ArcState
  import opened ArcCore
  import opened ArcCoreKeeps
  import opened ArcStrongKeeps

  /** `d` is `c` after `t` appended one write to `weak` through `via`; handles may have changed. */
  ghost predicate WroteW(c: Core, d: Core, t: Tid, via: Via) {
    && |c.strong| > 0 && |c.weak| > 0 && t in c.cur && t in d.cur
    && |d.weak| == |c.weak| + 1 && d.weak[..|c.weak|] == c.weak && d.strong == c.strong
    && LastW(d).via == via && LastW(d).id == |c.src| && d.src == c.src + [via]
    && d.cur == c.cur[t := d.cur[t]] && d.acq == c.acq
    && d.uses == c.uses && d.writes == c.writes && d.nextH >= c.nextH
    && Leq(c.cur[t], d.cur[t]) && |c.src| in d.cur[t].ev && d.cur[t].w == |c.weak|
    && (d.phase.Released? || (d.phase == c.phase && d.roots == c.roots))
  }

  lemma AppendedW(c: Core, d: Core, t: Tid, via: Via)
    requires WroteW(c, d, t, via)
    ensures forall k :: 0 <= k < |c.weak| ==> d.weak[k] == c.weak[k]
  {
    forall k | 0 <= k < |c.weak| ensures d.weak[k] == c.weak[k] {
      assert d.weak[..|c.weak|][k] == c.weak[k];
    }
  }

  lemma WroteWViews(c: Core, d: Core, t: Tid, via: Via)
    requires Views(c) && StrongOk(c) && WeakOk(c) && WroteW(c, d, t, via)
    requires Good(d, d.cur[t]) && Good(d, LastW(d).view)
    ensures Views(d)
  {
    hide Good, StrongOk, WeakOk;
    AppendedW(c, d, t, via);
    forall v | Good(c, v) ensures Good(d, v) { GoodLater(c, d, t, via, v); }
  }

  /** A new write carries a new event, so no earlier view knows it. */
  lemma GoodLater(c: Core, d: Core, t: Tid, via: Via, v: View)
    requires WroteW(c, d, t, via) && Good(c, v)
    ensures Good(d, v)
  {
    AppendedW(c, d, t, via);
  }

  lemma WroteWStrong(c: Core, d: Core, t: Tid, via: Via)
    requires StrongOk(c) && WroteW(c, d, t, via) && (d.phase == c.phase || !c.phase.Counted?)
    ensures StrongOk(d)
  {
    forall k | 0 < k < |d.strong| ensures SStep(d.strong[k - 1], d.strong[k]) {
      assert SStep(c.strong[k - 1], c.strong[k]);
    }
  }

  lemma WroteWWeak(c: Core, d: Core, t: Tid, via: Via)
    requires WeakOk(c) && WroteW(c, d, t, via) && (c.phase.Released? ==> d.phase.Released?)
    requires WStep(LastW(c), LastW(d)) && WVal(LastW(d)) && LastW(d).live == d.weaks.Keys
    requires LastW(d).implicit == !d.phase.Released? && LastW(d).locked == d.lock.Some?
    requires d.phase.Released? ==> |d.strong| - 1 <= LastW(d).view.s
    ensures WeakOk(d)
  {
    AppendedW(c, d, t, via);
    forall k | 0 < k < |d.weak| ensures WStep(d.weak[k - 1], d.weak[k]) {
      if k < |c.weak| { assert WStep(c.weak[k - 1], c.weak[k]); }
    }
  }

  ghost predicate WeakUsers(c: Core, d: Core, t: Tid) {
    forall w, u :: MayUse(d, Wk(w), u) ==> u == t || MayUse(c, Wk(w), u)
  }

  lemma WroteWSeen(c: Core, d: Core, t: Tid, via: Via)
    requires Seen(c) && WroteW(c, d, t, via) && WeakUsers(c, d, t) && LastW(d).live == d.weaks.Keys
    ensures Seen(d)
  {
    AppendedW(c, d, t, via);
    forall h, u, k | d.phase.Counted? && MayUse(d, Root(h), u) && u in d.cur && d.cur[u].s <= k < |d.strong|
      ensures h in d.strong[k].live
    {
      assert MayUse(c, Root(h), u);
    }
    forall w, u, k | MayUse(d, Wk(w), u) && u in d.cur && d.cur[u].w <= k < |d.weak| ensures w in d.weak[k].live {
      if k < |c.weak| { assert u != t && MayUse(c, Wk(w), u); }
    }
  }

  lemma WroteWCov(c: Core, d: Core, t: Tid, via: Via)
    requires Shape(c) && Cov(c) && WroteW(c, d, t, via) && MayUse(c, via, t)
    requires LastW(c).view.ev <= LastW(d).view.ev
    requires forall w :: w in d.weaks && w in c.weaks ==> c.weaks[w] <= d.weaks[w]
    requires forall w :: w in d.weaks && w !in c.weaks ==> w >= c.nextH
    requires forall w :: w in c.weaks && w !in d.weaks ==> c.weaks[w] == {t} && d.cur[t].ev <= LastW(d).view.ev
    requires d.phase != c.phase ==> d.roots == map[] && (forall h :: h in c.roots ==> c.roots[h] == {t})
    requires d.phase != c.phase ==> d.cur[t].ev <= LastW(d).view.ev && LastS(c).view.ev <= d.cur[t].ev
    requires d.phase == c.phase ==> d.roots == c.roots
    ensures Cov(d)
  {
    forall e | 0 <= e < |d.src| ensures Covered(d, e) {
      if e < |c.src| {
        assert Covered(c, e);
        if u :| MayUse(c, c.src[e], u) && Knows(c, u, e) {
          if MayUse(d, d.src[e], u) { assert Knows(d, u, e); }
        }
      } else if MayUse(d, via, t) {
        assert Knows(d, t, e);
      }
    }
  }

  lemma WroteWHolder(c: Core, d: Core, t: Tid, via: Via)
    requires Shape(c) && Holder(c) && WroteW(c, d, t, via) && d.cur[t].s < |c.strong|
    requires d.lock.Some? ==> d.lock.value == t && Leq(LastW(d).view, d.cur[t])
    requires d.phase.Released? ==> Leq(LastS(d).view, LastW(d).view)
    ensures Holder(d)
  {
  }

  lemma WroteWVisible(c: Core, d: Core, t: Tid, via: Via)
    requires |c.strong| > 0 && Visible(c) && WroteW(c, d, t, via) && WeakUsers(c, d, t)
    requires d.roots == c.roots || d.roots == map[]
    requires c.phase.Counted? ==> c.writes <= d.cur[t].ev + LastS(c).view.ev
    ensures Visible(d)
  {
    forall h, u | MayUse(d, Root(h), u) && u in d.cur ensures d.writes <= d.cur[u].ev {
      assert MayUse(c, Root(h), u);
    }
    forall w, u | d.phase.Counted? && MayUse(d, Wk(w), u) && u in d.cur
      ensures d.writes <= d.cur[u].ev + LastS(d).view.ev
    {
      if u != t { assert MayUse(c, Wk(w), u); }
    }
  }

  lemma WriterWGood(c: Core, t: Tid, via: Via, v: View, pass: View, release: bool, val: nat, live: set<Hid>,
                    implicit: bool, locked: bool)
    requires StrongOk(c) && WeakOk(c) && Good(c, v) && Good(c, pass)
    ensures var d := WriteW(c, t, via, v, pass, release, val, live, implicit, locked);
            Good(d, d.cur[t]) && Good(d, LastW(d).view)
  {
    var d := WriteW(c, t, via, v, pass, release, val, live, implicit, locked);
    assert Good(d, pass);
    assert Good(d, d.cur[t]);
    JoinGood(d, pass, d.cur[t]);
  }

  lemma RmwWFacts(c: Core, t: Tid, via: Via, acquire: bool, release: bool, val: nat, live: set<Hid>,
                  implicit: bool, locked: bool)
    requires CoreInv(c) && t in c.cur
    ensures t in c.acq && |c.strong| > 0 && |c.weak| > 0
    ensures var m := Pend(c, t, LastW(c).view);
            var r := RmwW(c, t, via, acquire, release, val, live, implicit, locked);
            && CoreInv(m) && Good(r, r.cur[t]) && Good(r, LastW(r).view)
            && r.cur[t].s < |c.strong| && Leq(c.cur[t], r.cur[t]) && |c.src| in r.cur[t].ev && r.cur[t].w == |c.weak|
            && Leq(LastW(c).view, LastW(r).view)
            && r.weak[..|c.weak|] == c.weak && |r.weak| == |c.weak| + 1
            && (release ==> Leq(r.cur[t], LastW(r).view))
            && (acquire && !release ==> Leq(LastW(r).view, r.cur[t]))
  {
    hide Shape, Views, StrongOk, WeakOk, Seen, Cov, Holder, Visible, Good;
    Basics(c);
    var was := LastW(c).view;
    PendKeeps(c, t, was);
    var m := Pend(c, t, was);
    var v := if acquire then Join(c.cur[t], was) else c.cur[t];
    JoinGood(c, c.cur[t], was);
    GoodWith(c, m, v);
    GoodWith(c, m, was);
    GoodRange(c, v);
    GoodRange(c, was);
    GoodRange(c, c.cur[t]);
    WriterWGood(m, t, via, v, was, release, val, live, implicit, locked);
  }

  ghost function LastWVal(c: Core): nat { if |c.weak| > 0 then LastW(c).val else 0 }

  ghost function LastWImplicit(c: Core): bool { |c.weak| > 0 && LastW(c).implicit }

  // ---- the writes of the program ----

  lemma NotReleased(c: Core, via: Via, t: Tid)
    requires Shape(c) && MayUse(c, via, t)
    ensures via.Root? ==> !c.phase.Released?
  {
  }

  /** `Arc::downgrade` (acquire); `Weak::clone`, `UniqueArc::downgrade` (relaxed). */
  lemma IncWKeeps(c: Core, t: Tid, via: Via, acquire: bool)
    requires CoreInv(c) && t in c.cur && MayUse(c, via, t) && c.lock == None
    requires LastWVal(c) < USIZE_MAX
    ensures t in c.acq && |c.weak| > 0
    ensures CoreInv(IncW(c, t, via, acquire))
  {
    hide Shape, Views, StrongOk, WeakOk, Seen, Cov, Holder, Visible, Good, WStep, WVal;
    var val, live := WrapInc(LastWVal(c)), c.weaks.Keys + {c.nextH};
    RmwWFacts(c, t, via, acquire, false, val, live, LastWImplicit(c), false);
    var m := Pend(c, t, LastW(c).view);
    var r := RmwW(c, t, via, acquire, false, val, live, LastWImplicit(c), false);
    var d := IncW(c, t, via, acquire);
    assert WroteW(m, d, t, via);
    GoodWith(r, d, d.cur[t]);
    GoodWith(r, d, LastW(d).view);
    IncWCounts(c, m, d, t, via);
    WroteWViews(m, d, t, via);
    WroteWStrong(m, d, t, via);
    ReleasedView(m);
    WroteWWeak(m, d, t, via);
    assert WeakUsers(m, d, t);
    WroteWSeen(m, d, t, via);
    WroteWCov(m, d, t, via);
    HolderView(m);
    WroteWHolder(m, d, t, via);
    if m.phase.Counted? { VisibleTo(m, t, via); }
    WroteWVisible(m, d, t, via);
  }

  lemma ReleasedView(c: Core)
    requires WeakOk(c)
    ensures c.phase.Released? ==> |c.strong| - 1 <= LastW(c).view.s
  {
  }

  lemma HolderView(c: Core)
    requires |c.strong| > 0 && |c.weak| > 0 && Holder(c)
    ensures c.phase.Released? ==> Leq(LastS(c).view, LastW(c).view)
    ensures c.phase.Held? && c.phase.fenced ==> c.phase.t in c.cur && Leq(LastS(c).view, c.cur[c.phase.t])
    ensures c.phase.Held? && c.phase.fenced ==> c.cur[c.phase.t].s == |c.strong| - 1
    ensures c.lock.Some? ==> c.lock.value in c.cur && Leq(LastW(c).view, c.cur[c.lock.value])
  {
  }

  lemma IncWCounts(c: Core, m: Core, d: Core, t: Tid, via: Via)
    requires Shape(c) && WeakOk(c) && MayUse(c, via, t) && t in c.cur && c.lock == None && LastW(c).val < USIZE_MAX
    requires m == c.(acq := m.acq) && Shape(m) && WroteW(m, d, t, via)
    requires d.roots == c.roots && d.phase == c.phase && d.lock == None
    requires d.weaks == c.weaks[c.nextH := {t}] && d.nextH == c.nextH + 1
    requires LastW(d).live == c.weaks.Keys + {c.nextH} && LastW(d).val == WrapInc(LastW(c).val)
    requires LastW(d).implicit == LastW(c).implicit && !LastW(d).locked
    ensures Shape(d) && WStep(LastW(m), LastW(d)) && WVal(LastW(d)) && LastW(d).live == d.weaks.Keys
    ensures LastW(d).implicit == !d.phase.Released?
    ensures c.nextH !in c.weaks
  {
    hide PhaseOk, WVal, WStep, WeakOk;
    NotReleased(c, via, t);
    IncWShape(c, d, t, via);
    IncWStep(c, d, t, via);
  }

  lemma IncWShape(c: Core, d: Core, t: Tid, via: Via)
    requires Shape(c) && MayUse(c, via, t) && t in c.cur && c.lock == None
    requires d == c.(weak := d.weak, src := d.src, cur := d.cur, acq := d.acq, weaks := d.weaks, nextH := d.nextH)
    requires |d.weak| > 0 && d.src == c.src + [via] && d.cur.Keys == c.cur.Keys == d.acq.Keys
    requires d.weaks == c.weaks[c.nextH := {t}] && d.nextH == c.nextH + 1
    ensures Shape(d) && c.nextH !in c.weaks
  {
    assert c.nextH !in c.roots && c.nextH !in c.weaks;
  }

  lemma IncWStep(c: Core, d: Core, t: Tid, via: Via)
    requires WeakOk(c) && MayUse(c, via, t) && c.lock == None && LastW(c).val < USIZE_MAX && c.nextH !in c.weaks
    requires via.Root? ==> !c.phase.Released?
    requires d.phase == c.phase && d.weaks == c.weaks[c.nextH := {t}] && |d.weak| > 0 && LastW(d).via == via
    requires LastW(d).live == c.weaks.Keys + {c.nextH} && LastW(d).val == WrapInc(LastW(c).val)
    requires LastW(d).implicit == LastW(c).implicit && !LastW(d).locked
    ensures WStep(LastW(c), LastW(d)) && WVal(LastW(d)) && LastW(d).live == d.weaks.Keys
    ensures LastW(d).implicit == !d.phase.Released?
  {
    assert WVal(LastW(c));
    assert |c.weaks.Keys + {c.nextH}| == |c.weaks.Keys| + 1;
  }

  /** `Weak::drop` of a handle that is not the implicit one. */
  lemma DecWKeeps(c: Core, t: Tid, w: Hid)
    requires CoreInv(c) && t in c.cur && w in c.weaks && c.weaks[w] == {t}
    ensures t in c.acq && |c.weak| > 0
    ensures CoreInv(DecW(c, t, w))
  {
    hide Shape, Views, StrongOk, WeakOk, Seen, Cov, Holder, Visible, Good;
    var val, live := WrapDec(LastWVal(c)), c.weaks.Keys - {w};
    RmwWFacts(c, t, Wk(w), false, true, val, live, LastWImplicit(c), false);
    var m := Pend(c, t, LastW(c).view);
    var r := RmwW(c, t, Wk(w), false, true, val, live, LastWImplicit(c), false);
    var d := DecW(c, t, w);
    assert WroteW(m, d, t, Wk(w));
    GoodWith(r, d, d.cur[t]);
    GoodWith(r, d, LastW(d).view);
    DecWCounts(c, m, d, t, w);
    WroteWViews(m, d, t, Wk(w));
    WroteWStrong(m, d, t, Wk(w));
    ReleasedView(m);
    WroteWWeak(m, d, t, Wk(w));
    assert WeakUsers(m, d, t);
    WroteWSeen(m, d, t, Wk(w));
    WroteWCov(m, d, t, Wk(w));
    HolderView(m);
    WroteWHolder(m, d, t, Wk(w));
    if m.phase.Counted? { VisibleTo(m, t, Wk(w)); }
    WroteWVisible(m, d, t, Wk(w));
  }

  lemma DecWCounts(c: Core, m: Core, d: Core, t: Tid, w: Hid)
    requires Shape(c) && WeakOk(c) && w in c.weaks && c.weaks[w] == {t} && t in c.cur
    requires m == c.(acq := m.acq) && Shape(m) && WroteW(m, d, t, Wk(w))
    requires d.roots == c.roots && d.phase == c.phase && d.lock == c.lock
    requires d.weaks == c.weaks - {w} && d.nextH == c.nextH
    requires LastW(d).live == c.weaks.Keys - {w} && LastW(d).val == WrapDec(LastW(c).val)
    requires LastW(d).implicit == LastW(c).implicit && !LastW(d).locked
    ensures Shape(d) && WStep(LastW(m), LastW(d)) && WVal(LastW(d)) && LastW(d).live == d.weaks.Keys
    ensures LastW(d).implicit == !d.phase.Released? && d.lock == None
    ensures LastW(c).val == 1 <==> d.weaks == map[] && d.phase.Released?
  {
    assert LastW(m) == LastW(c) && WVal(LastW(c));
    assert c.lock == None;
    assert d.cur.Keys == c.cur.Keys;
    assert |c.weaks.Keys - {w}| == |c.weaks.Keys| - 1;
    assert d.weaks.Keys == c.weaks.Keys - {w};
    assert d.weaks == map[] <==> |d.weaks.Keys| == 0;
  }

  /** The implicit weak reference is given up, by a keeper that has acquired the strong count's
      releases or by `new_cyclic` unwinding. */
  lemma DropImplicitKeeps(c: Core, t: Tid, h: Hid)
    requires CoreInv(c) && t in c.cur && h in c.roots && c.roots[h] == {t}
    requires c.phase == Held(t, true) || c.phase.CyclicB?
    ensures t in c.acq && |c.weak| > 0
    ensures CoreInv(DropImplicit(c, t, h))
    ensures LastW(c).val == 1 <==> c.weaks == map[]
  {
    hide Shape, Views, StrongOk, WeakOk, Seen, Cov, Holder, Visible, Good;
    var val := WrapDec(LastWVal(c));
    RmwWFacts(c, t, Root(h), false, true, val, c.weaks.Keys, false, false);
    var m := Pend(c, t, LastW(c).view);
    var r := RmwW(c, t, Root(h), false, true, val, c.weaks.Keys, false, false);
    var d := DropImplicit(c, t, h);
    assert WroteW(m, d, t, Root(h));
    GoodWith(r, d, d.cur[t]);
    GoodWith(r, d, LastW(d).view);
    DropImplicitCounts(c, m, d, t, h);
    WroteWViews(m, d, t, Root(h));
    WroteWStrong(m, d, t, Root(h));
    WroteWWeak(m, d, t, Root(h));
    assert WeakUsers(m, d, t);
    WroteWSeen(m, d, t, Root(h));
    WroteWCov(m, d, t, Root(h));
    WroteWHolder(m, d, t, Root(h));
    WroteWVisible(m, d, t, Root(h));
  }

  lemma DropImplicitCounts(c: Core, m: Core, d: Core, t: Tid, h: Hid)
    requires Shape(c) && WeakOk(c) && Holder(c) && h in c.roots && c.roots[h] == {t} && t in c.cur
    requires c.phase == Held(t, true) || c.phase.CyclicB?
    requires m == c.(acq := m.acq) && Shape(m) && WroteW(m, d, t, Root(h)) && Leq(d.cur[t], LastW(d).view)
    requires d.roots == map[] && d.phase == Released && d.lock == c.lock && d.weaks == c.weaks && d.nextH == c.nextH
    requires LastW(d).live == c.weaks.Keys && LastW(d).val == WrapDec(LastW(c).val)
    requires !LastW(d).implicit && !LastW(d).locked
    ensures Shape(d) && WStep(LastW(m), LastW(d)) && WVal(LastW(d)) && d.lock == None
    ensures |d.strong| - 1 <= LastW(d).view.s && Leq(LastS(d).view, d.cur[t]) && Leq(LastS(d).view, LastW(d).view)
    ensures forall g :: g in c.roots ==> c.roots[g] == {t}
    ensures LastW(c).val == 1 <==> c.weaks == map[]
  {
    hide Leq, PhaseOk;
    assert LastW(m) == LastW(c);
    LoneOwner(c, t, h);
    LastImplicit(c);
    DroppedShape(m, d);
    DroppedViews(c, d, t);
  }

  /** The newest weak count, while the implicit reference is there and nobody holds the lock. */
  lemma LastImplicit(c: Core)
    requires WeakOk(c) && !c.phase.Released? && c.lock == None
    ensures LastW(c).implicit && LastW(c).val == |c.weaks.Keys| + 1 && (LastW(c).val == 1 <==> c.weaks == map[])
  {
    assert WVal(LastW(c));
    assert c.weaks == map[] <==> |c.weaks.Keys| == 0;
  }

  lemma LoneOwner(c: Core, t: Tid, h: Hid)
    requires Shape(c) && h in c.roots && c.roots[h] == {t} && (c.phase.Held? || c.phase.CyclicB?)
    ensures c.lock == None && forall g :: g in c.roots ==> c.roots[g] == {t}
  {
    assert |c.roots.Keys| == 1;
    SoleElement(c.roots.Keys, h);
  }

  lemma DroppedShape(c: Core, d: Core)
    requires Shape(c) && d == c.(weak := d.weak, src := d.src, cur := d.cur, roots := map[], phase := Released)
    requires |d.weak| > 0 && d.cur.Keys == c.cur.Keys && c.lock == None
    requires |d.src| == |c.src| + 1 && d.src[..|c.src|] == c.src && d.src[|c.src|].h < c.nextH
    ensures Shape(d)
  {
    assert forall e :: 0 <= e < |c.src| ==> d.src[..|c.src|][e] == c.src[e];
  }

  /** The keeper has acquired all that `strong` passes on; before `new_cyclic` is done that is nothing. */
  lemma DroppedViews(c: Core, d: Core, t: Tid)
    requires Shape(c) && Holder(c) && t in c.cur && t in d.cur && (c.phase == Held(t, true) || c.phase.CyclicB?)
    requires d.strong == c.strong && Leq(c.cur[t], d.cur[t]) && |d.weak| > 0 && Leq(d.cur[t], LastW(d).view)
    ensures |d.strong| - 1 <= LastW(d).view.s && Leq(LastS(d).view, d.cur[t]) && Leq(LastS(d).view, LastW(d).view)
  {
  }

  /** `is_unique` takes the weak lock. */
  lemma LockWKeeps(c: Core, t: Tid, h: Hid)
    requires CoreInv(c) && c.phase.Counted? && t in c.cur && MayUse(c, Root(h), t) && LastWVal(c) == 1
    ensures t in c.acq && |c.weak| > 0 && c.weaks == map[] && c.lock == None
    ensures CoreInv(LockW(c, t, h))
  {
    hide Shape, Views, StrongOk, WeakOk, Seen, Cov, Holder, Visible, Good;
    RmwWFacts(c, t, Root(h), true, false, USIZE_MAX, {}, true, true);
    var m := Pend(c, t, LastW(c).view);
    var r := RmwW(c, t, Root(h), true, false, USIZE_MAX, {}, true, true);
    var d := LockW(c, t, h);
    assert WroteW(m, d, t, Root(h));
    GoodWith(r, d, d.cur[t]);
    GoodWith(r, d, LastW(d).view);
    LockCounts(c, m, d, t, h);
    WroteWViews(m, d, t, Root(h));
    WroteWStrong(m, d, t, Root(h));
    WroteWWeak(m, d, t, Root(h));
    assert WeakUsers(m, d, t);
    WroteWSeen(m, d, t, Root(h));
    WroteWCov(m, d, t, Root(h));
    WroteWHolder(m, d, t, Root(h));
    VisibleTo(m, t, Root(h));
    WroteWVisible(m, d, t, Root(h));
  }

  lemma LockCounts(c: Core, m: Core, d: Core, t: Tid, h: Hid)
    requires Shape(c) && WeakOk(c) && c.phase.Counted? && MayUse(c, Root(h), t) && t in c.cur && LastW(c).val == 1
    requires m == c.(acq := m.acq) && Shape(m) && WroteW(m, d, t, Root(h))
    requires d == m.(weak := d.weak, src := d.src, cur := d.cur, lock := Some(t))
    requires LastW(d).live == {} && LastW(d).val == USIZE_MAX && LastW(d).implicit && LastW(d).locked
    ensures Shape(d) && WStep(LastW(m), LastW(d)) && WVal(LastW(d)) && c.weaks == map[] && c.lock == None
  {
    assert LastW(m) == LastW(c) && WVal(LastW(c));
    assert d.cur.Keys == c.cur.Keys;
    assert |c.weaks.Keys| == 0;
  }

  /** The lock holder stores 1: exactly the count that was there when it took the lock. */
  lemma UnlockWKeeps(c: Core, t: Tid, h: Hid)
    requires CoreInv(c) && c.lock == Some(t) && t in c.cur && MayUse(c, Root(h), t)
    ensures CoreInv(UnlockW(c, t, h))
  {
    hide Shape, Views, StrongOk, WeakOk, Seen, Cov, Holder, Visible, Good;
    Basics(c);
    WriterWGood(c, t, Root(h), c.cur[t], c.cur[t], true, 1, {}, true, false);
    var r := StoreW(c, t, Root(h), 1, {}, true, false);
    var d := UnlockW(c, t, h);
    HolderView(c);
    GoodRange(c, c.cur[t]);
    assert WroteW(c, d, t, Root(h));
    GoodWith(r, d, d.cur[t]);
    GoodWith(r, d, LastW(d).view);
    UnlockCounts(c, d, t, h);
    WroteWViews(c, d, t, Root(h));
    WroteWStrong(c, d, t, Root(h));
    WroteWWeak(c, d, t, Root(h));
    assert WeakUsers(c, d, t);
    WroteWSeen(c, d, t, Root(h));
    WroteWCov(c, d, t, Root(h));
    WroteWHolder(c, d, t, Root(h));
    VisibleTo(c, t, Root(h));
    WroteWVisible(c, d, t, Root(h));
  }

  lemma UnlockCounts(c: Core, d: Core, t: Tid, h: Hid)
    requires Shape(c) && WeakOk(c) && c.lock == Some(t) && t in c.cur && MayUse(c, Root(h), t) && WroteW(c, d, t, Root(h))
    requires d == c.(weak := d.weak, src := d.src, cur := d.cur, lock := None)
    requires LastW(d).live == {} && LastW(d).val == 1 && LastW(d).implicit && !LastW(d).locked
    ensures Shape(d) && WStep(LastW(c), LastW(d)) && WVal(LastW(d)) && c.phase.Counted? && c.weaks == map[]
  {
    assert WVal(LastW(c));
    assert d.cur.Keys == c.cur.Keys;
  }
}
