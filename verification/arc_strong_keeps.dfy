/** Every write to `strong` keeps the core invariant. */
module ArcStrongKeeps {
  import opened Common
  import opened ArcState
  import opened ArcCore
  import opened ArcCoreKeeps

  /** `d` is `c` after `t` appended one write to `strong` through `via`; handles may have changed. */
  ghost predicate Wrote(c: Core, d: Core, t: Tid, via: Via) {
    && |c.strong| > 0 && |c.weak| > 0 && t in c.cur && t in d.cur
    && |d.strong| == |c.strong| + 1 && d.strong[..|c.strong|] == c.strong && d.weak == c.weak
    && LastS(d).via == via && LastS(d).id == |c.src| && d.src == c.src + [via]
    && d.cur == c.cur[t := d.cur[t]] && d.acq == c.acq && d.weaks == c.weaks && d.lock == c.lock
    && d.uses == c.uses && d.writes == c.writes && d.nextH >= c.nextH
    && Leq(c.cur[t], d.cur[t]) && |c.src| in d.cur[t].ev && d.cur[t].s == |c.strong|
    && !c.phase.Released? && !d.phase.Released?
  }

  lemma Appended(c: Core, d: Core, t: Tid, via: Via)
    requires Wrote(c, d, t, via)
    ensures forall k :: 0 <= k < |c.strong| ==> d.strong[k] == c.strong[k]
  {
    forall k | 0 <= k < |c.strong| ensures d.strong[k] == c.strong[k] {
      assert d.strong[..|c.strong|][k] == c.strong[k];
    }
  }

  lemma WroteViews(c: Core, d: Core, t: Tid, via: Via)
    requires Views(c) && StrongOk(c) && WeakOk(c) && Wrote(c, d, t, via)
    requires Good(d, d.cur[t]) && Good(d, LastS(d).view)
    ensures Views(d)
  {
    hide Good, StrongOk, WeakOk;
    Appended(c, d, t, via);
    forall v | Good(c, v) ensures Good(d, v) { GoodLater(c, d, t, via, v); }
  }

  /** A new write carries a new event, so no earlier view knows it. */
  lemma GoodLater(c: Core, d: Core, t: Tid, via: Via, v: View)
    requires Wrote(c, d, t, via) && Good(c, v)
    ensures Good(d, v)
  {
    Appended(c, d, t, via);
  }

  lemma WroteStrong(c: Core, d: Core, t: Tid, via: Via)
    requires StrongOk(c) && Wrote(c, d, t, via)
    requires SStep(LastS(c), LastS(d)) && LastS(d).val == |LastS(d).live| && LastS(d).live == Live(d)
    ensures StrongOk(d)
  {
    hide SStep;
    Appended(c, d, t, via);
    forall k | 0 < k < |d.strong| ensures SStep(d.strong[k - 1], d.strong[k]) {
      if k < |c.strong| { assert SStep(c.strong[k - 1], c.strong[k]); }
    }
  }

  lemma WroteWeak(c: Core, d: Core, t: Tid, via: Via)
    requires WeakOk(c) && Wrote(c, d, t, via)
    ensures WeakOk(d)
  {
    hide WStep, WVal;
    forall k | 0 < k < |d.weak| ensures WStep(d.weak[k - 1], d.weak[k]) {
      assert WStep(c.weak[k - 1], c.weak[k]);
    }
  }

  /** Users of a root after the write: they used it before, or they are the writer. */
  ghost predicate RootUsers(c: Core, d: Core, t: Tid) {
    forall h, u :: MayUse(d, Root(h), u) ==> u == t || MayUse(c, Root(h), u)
  }

  lemma WroteSeen(c: Core, d: Core, t: Tid, via: Via)
    requires Seen(c) && Wrote(c, d, t, via) && RootUsers(c, d, t)
    requires d.phase.Counted? ==> LastS(d).live == d.roots.Keys
    requires d.phase.Counted? && !c.phase.Counted? ==> forall h :: h in d.roots ==> d.roots[h] == {t}
    ensures Seen(d)
  {
    Appended(c, d, t, via);
    forall h, u, k | d.phase.Counted? && MayUse(d, Root(h), u) && u in d.cur && d.cur[u].s <= k < |d.strong|
      ensures h in d.strong[k].live
    {
      if k < |c.strong| { assert u != t && MayUse(c, Root(h), u); }
    }
    forall w, u, k | MayUse(d, Wk(w), u) && u in d.cur && d.cur[u].w <= k < |d.weak| ensures w in d.weak[k].live {
      assert MayUse(c, Wk(w), u);
    }
  }

  lemma WroteCov(c: Core, d: Core, t: Tid, via: Via)
    requires Shape(c) && Cov(c) && Wrote(c, d, t, via) && MayUse(c, via, t)
    requires LastS(c).view.ev <= LastS(d).view.ev
    requires forall h :: h in d.roots && h in c.roots ==> c.roots[h] <= d.roots[h]
    requires forall h :: h in d.roots && h !in c.roots ==> h >= c.nextH
    requires forall h :: h in c.roots && h !in d.roots ==> c.roots[h] == {t} && d.cur[t].ev <= LastS(d).view.ev
    ensures Cov(d)
  {
    forall e | 0 <= e < |d.src| ensures Covered(d, e) {
      if e < |c.src| {
        assert Covered(c, e);
        if u :| MayUse(c, c.src[e], u) && Knows(c, u, e) {
          if MayUse(d, d.src[e], u) { assert Knows(d, u, e); }
        }
      } else if MayUse(d, via, t) {
        assert Knows(d, t, e);
      }
    }
  }

  lemma WroteHolder(c: Core, d: Core, t: Tid, via: Via)
    requires Shape(c) && Holder(c) && Wrote(c, d, t, via) && d.cur[t].w < |c.weak|
    requires d.phase.Held? ==> d.phase.t == t && t in d.acq
    requires d.phase.Held? ==> Leq(LastS(d).view, if d.phase.fenced then d.cur[t] else Join(d.cur[t], d.acq[t]))
    ensures Holder(d)
  {
  }

  lemma WroteVisible(c: Core, d: Core, t: Tid, via: Via)
    requires |c.strong| > 0 && Visible(c) && Wrote(c, d, t, via) && RootUsers(c, d, t)
    requires LastS(c).view.ev <= LastS(d).view.ev
    requires (forall h :: h in d.roots ==> t !in d.roots[h]) || c.writes <= d.cur[t].ev
    requires d.phase.Counted? && !c.phase.Counted? ==> c.writes <= LastS(d).view.ev
    ensures Visible(d)
  {
    forall h, u | MayUse(d, Root(h), u) && u in d.cur ensures d.writes <= d.cur[u].ev {
      if u != t { assert MayUse(c, Root(h), u); }
    }
    forall w, u | d.phase.Counted? && MayUse(d, Wk(w), u) && u in d.cur
      ensures d.writes <= d.cur[u].ev + LastS(d).view.ev
    {
      if c.phase.Counted? { assert MayUse(c, Wk(w), u); }
    }
  }

  // ---- good views of the writer and of the write ----

  lemma WriterGood(c: Core, t: Tid, via: Via, v: View, pass: View, release: bool, val: nat, live: set<Hid>)
    requires StrongOk(c) && WeakOk(c) && Good(c, v) && Good(c, pass)
    ensures var d := WriteS(c, t, via, v, pass, release, val, live); Good(d, d.cur[t]) && Good(d, LastS(d).view)
  {
    var d := WriteS(c, t, via, v, pass, release, val, live);
    assert Good(d, pass);
    assert Good(d, d.cur[t]);
    JoinGood(d, pass, d.cur[t]);
  }

  lemma PendKeeps(c: Core, t: Tid, v: View)
    requires CoreInv(c) && t in c.cur && Good(c, v)
    ensures CoreInv(Pend(c, t, v))
  {
    hide Shape, Views, StrongOk, WeakOk, Seen, Cov, Holder, Visible;
    Basics(c);
    var d := Pend(c, t, v);
    JoinGood(c, c.acq[t], v);
    hide Good;
    GoodWith(c, d, c.cur[t]);
    GoodWith(c, d, d.acq[t]);
    assert d.cur == c.cur[t := c.cur[t]];
    GrownKeeps(c, d, t, Root(0));
  }

  /** The facts about a read-modify-write of `strong` that do not depend on the handles. */
  lemma RmwSFacts(c: Core, t: Tid, via: Via, acquire: bool, release: bool, val: nat, live: set<Hid>)
    requires CoreInv(c) && t in c.cur
    ensures t in c.acq && |c.strong| > 0 && |c.weak| > 0
    ensures var m := Pend(c, t, LastS(c).view); var r := RmwS(c, t, via, acquire, release, val, live);
            && CoreInv(m) && Good(r, r.cur[t]) && Good(r, LastS(r).view)
            && r.cur[t].w < |c.weak| && Leq(c.cur[t], r.cur[t]) && |c.src| in r.cur[t].ev && r.cur[t].s == |c.strong|
            && LastS(c).view.ev <= LastS(r).view.ev
            && r.strong[..|c.strong|] == c.strong && |r.strong| == |c.strong| + 1
            && (release ==> r.cur[t].ev <= LastS(r).view.ev)
            && (acquire && !release ==> Leq(LastS(r).view, r.cur[t]))
            && (acquire ==> LastS(c).view.ev <= r.cur[t].ev)
            && Leq(LastS(r).view, Join(r.cur[t], r.acq[t]))
  {
    hide Shape, Views, StrongOk, WeakOk, Seen, Cov, Holder, Visible, Good;
    Basics(c);
    var was := LastS(c).view;
    PendKeeps(c, t, was);
    var m := Pend(c, t, was);
    var v := if acquire then Join(c.cur[t], was) else c.cur[t];
    JoinGood(c, c.cur[t], was);
    GoodWith(c, m, v);
    GoodWith(c, m, was);
    GoodRange(c, v);
    GoodRange(c, c.cur[t]);
    WriterGood(m, t, via, v, was, release, val, live);
  }

  // ---- the writes of the program ----

  /** `Arc::clone` (relaxed) and the successful exchange of `Weak::upgrade` (acquire). */
  lemma IncSKeeps(c: Core, t: Tid, via: Via, acquire: bool)
    requires CoreInv(c) && c.phase.Counted? && t in c.cur && MayUse(c, via, t) && (via.Wk? ==> acquire)
    requires |c.roots| < USIZE_MAX
    ensures t in c.acq && |c.strong| > 0
    ensures CoreInv(IncS(c, t, via, acquire))
  {
    hide Shape, Views, StrongOk, WeakOk, Seen, Cov, Holder, Visible, Good;
    var live := c.roots.Keys + {c.nextH};
    var val := WrapInc(LastSVal(c));
    RmwSFacts(c, t, via, acquire, false, val, live);
    var m := Pend(c, t, LastS(c).view);
    var r := RmwS(c, t, via, acquire, false, val, live);
    var d := IncS(c, t, via, acquire);
    assert Wrote(m, d, t, via);
    GoodWith(r, d, d.cur[t]);
    GoodWith(r, d, LastS(d).view);
    IncSCounts(c, m, d, t, via);
    WroteViews(m, d, t, via);
    WroteStrong(m, d, t, via);
    WroteWeak(m, d, t, via);
    assert RootUsers(m, d, t);
    WroteSeen(m, d, t, via);
    WroteCov(m, d, t, via);
    WroteHolder(m, d, t, via);
    VisibleTo(m, t, via);
    WroteVisible(m, d, t, via);
  }

  ghost function LastSVal(c: Core): nat { if |c.strong| > 0 then LastS(c).val else 0 }

  lemma VisibleTo(c: Core, t: Tid, via: Via)
    requires |c.strong| > 0 && Visible(c) && MayUse(c, via, t) && t in c.cur && (via.Wk? ==> c.phase.Counted?)
    ensures via.Root? ==> c.writes <= c.cur[t].ev
    ensures c.writes <= c.cur[t].ev + LastS(c).view.ev
  {
  }

  lemma IncSCounts(c: Core, m: Core, d: Core, t: Tid, via: Via)
    requires Shape(c) && StrongOk(c) && c.phase.Counted? && MayUse(c, via, t) && t in c.cur
    requires |c.roots| < USIZE_MAX && m == c.(acq := m.acq) && Shape(m) && Wrote(m, d, t, via)
    requires d.roots == c.roots[c.nextH := {t}] && d.nextH == c.nextH + 1 && d.phase == c.phase
    requires LastS(d).live == c.roots.Keys + {c.nextH} && LastS(d).val == WrapInc(LastS(c).val)
    ensures Shape(d) && SStep(LastS(m), LastS(d)) && LastS(d).val == |LastS(d).live| && LastS(d).live == Live(d)
    ensures c.nextH !in c.roots
  {
    hide Shape, SStep, StrongOk, Leq;
    ShapeKeys(c);
    ShapeKeys(m);
    assert d.cur.Keys == m.cur.Keys;
    IncSShape(c, d, t, via);
    assert LastS(m) == LastS(c);
    IncSStep(c, d, t, via);
  }

  lemma ShapeKeys(c: Core)
    requires Shape(c)
    ensures c.cur.Keys == c.acq.Keys && |c.strong| > 0 && (c.phase.Counted? ==> c.roots != map[])
  {
  }

  lemma IncSShape(c: Core, d: Core, t: Tid, via: Via)
    requires Shape(c) && MayUse(c, via, t) && t in c.cur && c.phase.Counted?
    requires d == c.(strong := d.strong, src := d.src, cur := d.cur, acq := d.acq, roots := d.roots, nextH := d.nextH)
    requires |d.strong| > 0 && d.src == c.src + [via] && d.cur.Keys == c.cur.Keys == d.acq.Keys
    requires d.roots == c.roots[c.nextH := {t}] && d.nextH == c.nextH + 1
    ensures Shape(d) && c.nextH !in c.roots
  {
    assert c.nextH !in c.roots && c.nextH !in c.weaks;
  }

  lemma IncSStep(c: Core, d: Core, t: Tid, via: Via)
    requires StrongOk(c) && c.phase.Counted? && MayUse(c, via, t) && |c.roots| < USIZE_MAX && c.nextH !in c.roots
    requires d.phase == c.phase && d.roots == c.roots[c.nextH := {t}] && |d.strong| > 0 && LastS(d).via == via && c.roots != map[]
    requires LastS(d).live == c.roots.Keys + {c.nextH} && LastS(d).val == WrapInc(LastS(c).val)
    ensures SStep(LastS(c), LastS(d)) && LastS(d).val == |LastS(d).live| && LastS(d).live == Live(d)
  {
    assert |c.roots.Keys| == |c.roots|;
    assert |c.roots.Keys + {c.nextH}| == |c.roots.Keys| + 1;
  }

  /** `Arc::drop` and `into_inner` (release), `try_unwrap` (relaxed) and `make_mut` (acquire). */
  lemma DecSKeeps(c: Core, t: Tid, h: Hid, acquire: bool, release: bool)
    requires CoreInv(c) && c.phase.Counted? && t in c.cur && h in c.roots && c.roots[h] == {t} && c.lock != Some(t)
    requires acquire != release || |c.roots| == 1
    requires acquire ==> !release
    requires |c.roots| != 1 ==> release
    requires c.lock.Some? ==> |c.roots| != 1
    ensures t in c.acq && |c.strong| > 0
    ensures CoreInv(DecS(c, t, h, acquire, release))
    ensures DecS(c, t, h, acquire, release).phase == if |c.roots| == 1 then Held(t, acquire) else Counted
  {
    hide Shape, Views, StrongOk, WeakOk, Seen, Cov, Holder, Visible, Good;
    var live := c.roots.Keys - {h};
    var val := WrapDec(LastSVal(c));
    RmwSFacts(c, t, Root(h), acquire, release, val, live);
    var m := Pend(c, t, LastS(c).view);
    var r := RmwS(c, t, Root(h), acquire, release, val, live);
    var d := DecS(c, t, h, acquire, release);
    CountIs(c);
    assert Wrote(m, d, t, Root(h));
    GoodWith(r, d, d.cur[t]);
    GoodWith(r, d, LastS(d).view);
    DecSCounts(c, m, d, t, h);
    WroteViews(m, d, t, Root(h));
    WroteStrong(m, d, t, Root(h));
    WroteWeak(m, d, t, Root(h));
    assert RootUsers(m, d, t);
    WroteSeen(m, d, t, Root(h));
    WroteCov(m, d, t, Root(h));
    WroteHolder(m, d, t, Root(h));
    VisibleTo(m, t, Root(h));
    WroteVisible(m, d, t, Root(h));
  }

  lemma CountIs(c: Core)
    requires StrongOk(c) && c.phase.Counted?
    ensures LastS(c).val == |c.roots| == |c.roots.Keys|
  {
  }

  lemma DecSCounts(c: Core, m: Core, d: Core, t: Tid, h: Hid)
    requires Shape(c) && StrongOk(c) && c.phase.Counted? && t in c.cur && h in c.roots && c.roots[h] == {t}
    requires m == c.(acq := m.acq) && Shape(m) && Wrote(m, d, t, Root(h)) && d.nextH == c.nextH
    requires LastS(c).val == 1 ==> d.roots == c.roots && d.phase.Held? && d.phase.t == t && c.lock == None
    requires LastS(c).val != 1 ==> d.roots == c.roots - {h} && d.phase == c.phase
    requires LastS(d).live == c.roots.Keys - {h} && LastS(d).val == WrapDec(LastS(c).val)
    ensures Shape(d) && SStep(LastS(m), LastS(d)) && LastS(d).val == |LastS(d).live| && LastS(d).live == Live(d)
  {
    CountIs(c);
    assert LastS(m) == LastS(c);
    assert d.cur.Keys == c.cur.Keys;
    assert |c.roots.Keys - {h}| == |c.roots| - 1;
    if LastS(c).val == 1 {
      SoleElement(c.roots.Keys, h);
    } else {
      assert d.roots.Keys == c.roots.Keys - {h};
      assert |d.roots.Keys| > 0;
    }
  }

  /** The store of 1 by the only handle of either kind: it starts a new release sequence. */
  lemma StoreOneKeeps(c: Core, t: Tid, h: Hid)
    requires CoreInv(c) && t in c.cur && h in c.roots && c.roots[h] == {t}
    requires (c.phase == Held(t, true) && c.weaks == map[]) || c.phase.UniqueB?
    ensures CoreInv(StoreOne(c, t, h))
  {
    hide Shape, Views, StrongOk, WeakOk, Seen, Cov, Holder, Visible, Good;
    Basics(c);
    var d := StoreOne(c, t, h);
    WriterGood(c, t, Root(h), c.cur[t], c.cur[t], true, 1, {h});
    var r := StoreS(c, t, Root(h), 1, {h});
    GoodWith(r, d, d.cur[t]);
    GoodWith(r, d, LastS(d).view);
    GoodRange(c, c.cur[t]);
    assert Wrote(c, d, t, Root(h));
    StoreOneCounts(c, d, t, h);
    WroteViews(c, d, t, Root(h));
    WroteStrong(c, d, t, Root(h));
    WroteWeak(c, d, t, Root(h));
    assert RootUsers(c, d, t);
    WroteSeen(c, d, t, Root(h));
    WroteCov(c, d, t, Root(h));
    WroteHolder(c, d, t, Root(h));
    VisibleTo(c, t, Root(h));
    WroteVisible(c, d, t, Root(h));
  }

  lemma StoreOneCounts(c: Core, d: Core, t: Tid, h: Hid)
    requires Shape(c) && StrongOk(c) && Holder(c) && Wrote(c, d, t, Root(h)) && h in c.roots && c.roots[h] == {t}
    requires c.phase == Held(t, true) || c.phase.UniqueB? || c.phase.CyclicB?
    requires d.roots == c.roots && d.phase.Counted? && d.nextH == c.nextH
    requires LastS(d).live == {h} && LastS(d).val == 1
    ensures Shape(d) && SStep(LastS(c), LastS(d)) && LastS(d).live == Live(d)
    ensures !c.phase.CyclicB? ==> LastS(c).view.ev <= c.cur[t].ev
    ensures c.roots == map[h := {t}]
  {
    assert |c.roots.Keys| == |c.roots|;
    SoleElement(c.roots.Keys, h);
    assert d.cur.Keys == c.cur.Keys;
  }

  lemma AddOneKeeps(c: Core, t: Tid, h: Hid)
    requires CoreInv(c) && t in c.cur && h in c.roots && c.roots[h] == {t} && c.phase.CyclicB?
    ensures t in c.acq && |c.strong| > 0
    ensures CoreInv(AddOne(c, t, h))
  {
    hide Shape, Views, StrongOk, WeakOk, Seen, Cov, Holder, Visible, Good;
    var val := WrapInc(LastSVal(c));
    RmwSFacts(c, t, Root(h), false, true, val, {h});
    var m := Pend(c, t, LastS(c).view);
    var r := RmwS(c, t, Root(h), false, true, val, {h});
    var d := AddOne(c, t, h);
    assert Wrote(m, d, t, Root(h));
    GoodWith(r, d, d.cur[t]);
    GoodWith(r, d, LastS(d).view);
    ZeroIs(c);
    StoreOneCounts(m, d, t, h);
    WroteViews(m, d, t, Root(h));
    WroteStrong(m, d, t, Root(h));
    WroteWeak(m, d, t, Root(h));
    assert RootUsers(m, d, t);
    WroteSeen(m, d, t, Root(h));
    WroteCov(m, d, t, Root(h));
    WroteHolder(m, d, t, Root(h));
    VisibleTo(m, t, Root(h));
    WroteVisible(m, d, t, Root(h));
  }

  lemma ZeroIs(c: Core)
    requires StrongOk(c) && !c.phase.Counted?
    ensures LastS(c).val == 0
  {
  }

  lemma TakeUniqueKeeps(c: Core, t: Tid)
    requires CoreInv(c) && c.phase.UniqueB? && t in c.cur && (forall h :: h in c.roots ==> c.roots[h] == {t})
    ensures CoreInv(TakeUnique(c, t))
  {
    hide Shape, Views, StrongOk, WeakOk, Seen, Cov, Holder, Visible;
    var d := TakeUnique(c, t);
    RelabelUniqueOrders(c, d, t);
    RelabelUniqueCov(c, d, t);
  }

  lemma RelabelUniqueOrders(c: Core, d: Core, t: Tid)
    requires Views(c) && StrongOk(c) && WeakOk(c) && Seen(c) && c.phase.UniqueB? && d == TakeUnique(c, t)
    ensures Views(d) && StrongOk(d) && WeakOk(d) && Seen(d)
  {
    hide Good, Views, StrongOk, WeakOk;
    RelabelUniqueViews(c, d, t);
    RelabelUniqueStrong(c, d, t);
    RelabelUniqueWeak(c, d, t);
    forall w, u, k | MayUse(d, Wk(w), u) && u in d.cur && d.cur[u].w <= k < |d.weak| ensures w in d.weak[k].live {
      assert MayUse(c, Wk(w), u);
    }
  }

  lemma RelabelUniqueViews(c: Core, d: Core, t: Tid)
    requires Views(c) && d == TakeUnique(c, t)
    ensures Views(d)
  {
    forall v | Good(c, v) ensures Good(d, v) {}
  }

  lemma RelabelUniqueStrong(c: Core, d: Core, t: Tid)
    requires StrongOk(c) && c.phase.UniqueB? && d == TakeUnique(c, t)
    ensures StrongOk(d)
  {
    forall k | 0 < k < |d.strong| ensures SStep(d.strong[k - 1], d.strong[k]) {
      assert SStep(c.strong[k - 1], c.strong[k]);
    }
  }

  lemma RelabelUniqueWeak(c: Core, d: Core, t: Tid)
    requires WeakOk(c) && c.phase.UniqueB? && d == TakeUnique(c, t)
    ensures WeakOk(d)
  {
    forall k | 0 < k < |d.weak| ensures WStep(d.weak[k - 1], d.weak[k]) {
      assert WStep(c.weak[k - 1], c.weak[k]);
    }
  }

  lemma RelabelUniqueCovered(c: Core, d: Core, t: Tid)
    requires |c.strong| > 0 && |c.weak| > 0 && Cov(c) && c.phase.UniqueB? && d == TakeUnique(c, t)
    ensures Cov(d)
  {
    forall e | 0 <= e < |d.src| ensures Covered(d, e) {
      assert Covered(c, e);
      if u :| MayUse(c, c.src[e], u) && Knows(c, u, e) {
        assert MayUse(d, d.src[e], u) && Knows(d, u, e);
      }
    }
  }

  lemma RelabelUniqueCov(c: Core, d: Core, t: Tid)
    requires Shape(c) && Views(c) && Cov(c) && Holder(c) && Visible(c) && c.phase.UniqueB? && t in c.cur && d == TakeUnique(c, t)
    requires forall h :: h in c.roots ==> c.roots[h] == {t}
    ensures Shape(d) && Cov(d) && Holder(d) && Visible(d)
  {
    assert Cov(d) by { RelabelUniqueCovered(c, d, t); }
    hide Cov, Views;
    assert Good(c, c.cur[t]) by { assert Views(c); }
    forall h, u | MayUse(d, Root(h), u) && u in d.cur ensures d.writes <= d.cur[u].ev {
      assert MayUse(c, Root(h), u);
    }
  }
}
