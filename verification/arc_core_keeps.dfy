/** Every core transition keeps the core invariant. */
module ArcCoreKeeps {
  import opened Common
  import opened ArcState
  import opened ArcCore

  // ---- steps that only let a thread observe more ----

  lemma Basics(c: Core)
    requires Shape(c) && Views(c)
    ensures |c.strong| > 0 && |c.weak| > 0 && c.cur.Keys == c.acq.Keys
    ensures forall t :: t in c.cur ==> Good(c, c.cur[t]) && Good(c, c.acq[t])
    ensures forall k :: 0 <= k < |c.strong| ==> Good(c, c.strong[k].view)
    ensures forall k :: 0 <= k < |c.weak| ==> Good(c, c.weak[k].view)
  {
  }

  /** `d` is `c` after thread `t` observed more and possibly performed one event through `via`. */
  ghost predicate Grown(c: Core, d: Core, t: Tid, via: Via) {
    && t in c.cur && t in c.acq && t in d.cur && t in d.acq
    && d == c.(cur := c.cur[t := d.cur[t]], acq := c.acq[t := d.acq[t]], src := d.src)
    && Leq(c.cur[t], d.cur[t]) && Leq(c.acq[t], d.acq[t])
    && Good(d, d.cur[t]) && Good(d, d.acq[t])
    && (d.src == c.src || (d.src == c.src + [via] && MayUse(c, via, t) && |c.src| in d.cur[t].ev))
  }

  /** What is said of `strong` depends on its writes, their events and the handles counted. */
  lemma StrongSame(c: Core, d: Core)
    requires StrongOk(c) && d.strong == c.strong && Live(d) == Live(c) && |c.src| <= |d.src| && d.src[..|c.src|] == c.src
    ensures StrongOk(d)
  {
    forall k | 0 < k < |d.strong| ensures SStep(d.strong[k - 1], d.strong[k]) && d.src[d.strong[k].id] == d.strong[k].via {
      assert SStep(c.strong[k - 1], c.strong[k]) && d.src[..|c.src|][c.strong[k].id] == c.strong[k].via;
    }
  }

  lemma WeakSame(c: Core, d: Core)
    requires WeakOk(c) && d.weak == c.weak && d.weaks.Keys == c.weaks.Keys && d.lock == c.lock && |d.strong| == |c.strong|
    requires (d.phase.Released? <==> c.phase.Released?) && |c.src| <= |d.src| && d.src[..|c.src|] == c.src
    ensures WeakOk(d)
  {
    forall k | 0 < k < |d.weak| ensures WStep(d.weak[k - 1], d.weak[k]) && d.src[d.weak[k].id] == d.weak[k].via {
      assert WStep(c.weak[k - 1], c.weak[k]) && d.src[..|c.src|][c.weak[k].id] == c.weak[k].via;
    }
  }

  lemma GrownShape(c: Core, d: Core, t: Tid, via: Via)
    requires Shape(c) && Grown(c, d, t, via)
    ensures Shape(d)
  {
  }

  lemma GrownViews(c: Core, d: Core, t: Tid, via: Via)
    requires Views(c) && Grown(c, d, t, via)
    ensures Views(d)
  {
    forall v | Good(c, v) ensures Good(d, v) {}
  }

  lemma GrownOrders(c: Core, d: Core, t: Tid, via: Via)
    requires StrongOk(c) && WeakOk(c) && Seen(c) && Grown(c, d, t, via)
    ensures StrongOk(d) && WeakOk(d) && Seen(d)
  {
    hide Good, StrongOk, WeakOk;
    StrongSame(c, d);
    WeakSame(c, d);
    forall h, u, k | d.phase.Counted? && MayUse(d, Root(h), u) && u in d.cur && d.cur[u].s <= k < |d.strong|
      ensures h in d.strong[k].live
    {
      assert MayUse(c, Root(h), u);
    }
    forall w, u, k | MayUse(d, Wk(w), u) && u in d.cur && d.cur[u].w <= k < |d.weak| ensures w in d.weak[k].live {
      assert MayUse(c, Wk(w), u);
    }
  }

  lemma GrownCov(c: Core, d: Core, t: Tid, via: Via)
    requires Shape(c) && Cov(c) && Grown(c, d, t, via)
    ensures Cov(d)
  {
    forall e | 0 <= e < |d.src| ensures Covered(d, e) {
      if e == |c.src| {
        assert MayUse(d, d.src[e], t) && Knows(d, t, e);
      } else {
        assert Covered(c, e);
        if u :| MayUse(c, c.src[e], u) && Knows(c, u, e) {
          assert MayUse(d, d.src[e], u) && Knows(d, u, e);
        }
      }
    }
  }

  lemma GrownHolder(c: Core, d: Core, t: Tid, via: Via)
    requires Shape(c) && Holder(c) && Grown(c, d, t, via)
    ensures Holder(d)
  {
    hide Good, PhaseOk;
    assert d.cur[t].s < |c.strong| && d.cur[t].w < |c.weak| by { GrownRange(c, d, t, via); }
  }

  lemma GrownRange(c: Core, d: Core, t: Tid, via: Via)
    requires Grown(c, d, t, via)
    ensures d.cur[t].s < |c.strong| && d.cur[t].w < |c.weak|
  {
  }

  lemma GrownVisible(c: Core, d: Core, t: Tid, via: Via)
    requires |c.strong| > 0 && Visible(c) && Grown(c, d, t, via)
    ensures Visible(d)
  {
    hide Good;
    forall h, u | MayUse(d, Root(h), u) && u in d.cur ensures d.writes <= d.cur[u].ev {
      assert MayUse(c, Root(h), u);
    }
    forall w, u | d.phase.Counted? && MayUse(d, Wk(w), u) && u in d.cur
      ensures d.writes <= d.cur[u].ev + LastS(d).view.ev
    {
      assert MayUse(c, Wk(w), u);
    }
  }

  lemma GrownKeeps(c: Core, d: Core, t: Tid, via: Via)
    requires CoreInv(c) && Grown(c, d, t, via)
    ensures CoreInv(d)
  {
    hide Shape, Views, StrongOk, WeakOk, Seen, Cov, Holder, Visible;
    GrownShape(c, d, t, via);
    GrownViews(c, d, t, via);
    GrownOrders(c, d, t, via);
    GrownCov(c, d, t, via);
    GrownHolder(c, d, t, via);
    GrownVisible(c, d, t, via);
  }

  /** Joining two good views gives a good view. */
  lemma JoinGood(c: Core, a: View, b: View)
    requires Good(c, a) && Good(c, b)
    ensures Good(c, Join(a, b))
  {
  }

  lemma LearnKeeps(c: Core, t: Tid, v: View)
    requires CoreInv(c) && t in c.cur && Good(c, v)
    ensures CoreInv(Learn(c, t, v))
  {
    hide Shape, Views, StrongOk, WeakOk, Seen, Cov, Holder, Visible;
    Basics(c);
    hide Good;
    JoinGood(c, c.cur[t], v);
    var d := Learn(c, t, v);
    GoodWith(c, d, d.cur[t]);
    GoodWith(c, d, c.acq[t]);
    assert d.acq == c.acq[t := c.acq[t]];
    GrownKeeps(c, d, t, Root(0));
  }

  lemma GoodWith(c: Core, d: Core, v: View)
    requires Good(c, v) && d.strong == c.strong && d.weak == c.weak && d.src == c.src
    ensures Good(d, v)
  {
  }

  lemma FenceKeeps(c: Core, t: Tid)
    requires CoreInv(c) && t in c.cur
    ensures CoreInv(Fence(c, t))
  {
    hide Shape, Views, StrongOk, WeakOk, Seen, Cov, Holder, Visible;
    Basics(c);
    LearnKeeps(c, t, c.acq[t]);
    var m := Learn(c, t, c.acq[t]);
    if c.phase.Held? && c.phase.t == t {
      FencedKnows(c, t);
      FlagKeeps(m, Fence(c, t));
    }
  }

  lemma FencedKnows(c: Core, t: Tid)
    requires Shape(c) && Holder(c) && c.phase.Held? && c.phase.t == t
    ensures t in c.cur && t in c.acq && Leq(LastS(c).view, Join(c.cur[t], c.acq[t]))
  {
  }

  /** Marking the keeper as fenced once it has acquired the strong count's releases. */
  lemma FlagKeeps(c: Core, d: Core)
    requires CoreInv(c) && c.phase.Held? && d == c.(phase := Held(c.phase.t, true))
    requires Leq(LastS(c).view, c.cur[c.phase.t])
    ensures CoreInv(d)
  {
    hide Shape, Views, StrongOk, WeakOk, Seen, Cov, Visible, Leq;
    FlagShape(c, d);
    RelabelOrders(c, d);
    RelabelRest(c, d);
  }

  lemma FlagShape(c: Core, d: Core)
    requires Shape(c) && c.phase.Held? && d == c.(phase := Held(c.phase.t, true))
    ensures Shape(d)
  {
  }

  /** `d` differs from `c` only in what the counters do not depend on. */
  ghost predicate Relabelled(c: Core, d: Core) {
    && d == c.(phase := d.phase, uses := d.uses, writes := d.writes)
    && (d.phase == c.phase || (d.phase.Held? && c.phase.Held?))
  }

  lemma RelabelOrders(c: Core, d: Core)
    requires Views(c) && StrongOk(c) && WeakOk(c) && Relabelled(c, d)
    ensures Views(d) && StrongOk(d) && WeakOk(d)
  {
    hide StrongOk, WeakOk;
    forall v | Good(c, v) ensures Good(d, v) {}
    StrongSame(c, d);
    WeakSame(c, d);
  }

  lemma RelabelRest(c: Core, d: Core)
    requires Shape(c) && Seen(c) && Cov(c) && Visible(c) && Relabelled(c, d)
    ensures Seen(d) && Cov(d) && (d.writes == c.writes ==> Visible(d))
  {
    forall h, u, k | d.phase.Counted? && MayUse(d, Root(h), u) && u in d.cur && d.cur[u].s <= k < |d.strong|
      ensures h in d.strong[k].live
    {
      assert MayUse(c, Root(h), u);
    }
    forall w, u, k | MayUse(d, Wk(w), u) && u in d.cur && d.cur[u].w <= k < |d.weak| ensures w in d.weak[k].live {
      assert MayUse(c, Wk(w), u);
    }
    forall e | 0 <= e < |d.src| ensures Covered(d, e) {
      assert Covered(c, e);
      if u :| MayUse(c, c.src[e], u) && Knows(c, u, e) {
        assert MayUse(d, d.src[e], u) && Knows(d, u, e);
      }
    }
    forall h, u | MayUse(d, Root(h), u) && u in d.cur ensures c.writes <= d.cur[u].ev {
      assert MayUse(c, Root(h), u);
    }
    forall w, u | d.phase.Counted? && MayUse(d, Wk(w), u) && u in d.cur
      ensures c.writes <= d.cur[u].ev + LastS(d).view.ev
    {
      assert MayUse(c, Wk(w), u);
    }
  }

  lemma GoodRange(c: Core, v: View)
    requires Good(c, v)
    ensures v.s < |c.strong| && v.w < |c.weak| && forall e :: e in v.ev ==> e < |c.src|
  {
  }

  lemma LoadSKeeps(c: Core, t: Tid, via: Via, k: nat, acquire: bool)
    requires CoreInv(c) && t in c.cur && MayUse(c, via, t) && k < |c.strong|
    ensures CoreInv(LoadS(c, t, via, k, acquire))
  {
    hide Shape, Views, StrongOk, WeakOk, Seen, Cov, Holder, Visible, Good;
    Basics(c);
    GoodRange(c, c.cur[t]);
    var s, w := Max(c.cur[t].s, k), c.cur[t].w;
    MovedGood(c, c.cur[t], s, w);
    JoinGood(c, c.cur[t].(s := s, w := w), c.strong[k].view);
    JoinGood(c, c.acq[t], c.strong[k].view);
    var d := LoadS(c, t, via, k, acquire);
    PerformGood(c, d, via, ReadS(c, t, k, acquire));
    PerformGood(c, d, via, d.acq[t]);
    GrownKeeps(c, d, t, via);
  }

  lemma LoadWKeeps(c: Core, t: Tid, via: Via, k: nat, acquire: bool)
    requires CoreInv(c) && t in c.cur && MayUse(c, via, t) && k < |c.weak|
    ensures CoreInv(LoadW(c, t, via, k, acquire))
  {
    hide Shape, Views, StrongOk, WeakOk, Seen, Cov, Holder, Visible, Good;
    Basics(c);
    GoodRange(c, c.cur[t]);
    var s, w := c.cur[t].s, Max(c.cur[t].w, k);
    MovedGood(c, c.cur[t], s, w);
    JoinGood(c, c.cur[t].(s := s, w := w), c.weak[k].view);
    JoinGood(c, c.acq[t], c.weak[k].view);
    var d := LoadW(c, t, via, k, acquire);
    PerformGood(c, d, via, ReadW(c, t, k, acquire));
    PerformGood(c, d, via, d.acq[t]);
    GrownKeeps(c, d, t, via);
  }

  /** Performing an event leaves a good view good: no write to a counter carries that event. */
  lemma PerformGood(c: Core, d: Core, via: Via, v: View)
    requires StrongOk(c) && WeakOk(c) && d.strong == c.strong && d.weak == c.weak && d.src == c.src + [via]
    requires Good(c, v)
    ensures Good(d, v) && Good(d, v.(ev := v.ev + {|c.src|}))
  {
  }

  lemma MovedGood(c: Core, v: View, s: nat, w: nat)
    requires Good(c, v) && v.s <= s < |c.strong| && v.w <= w < |c.weak|
    ensures Good(c, v.(s := s, w := w))
  {
  }

  lemma UseKeeps(c: Core, t: Tid, h: Hid, write: bool)
    requires CoreInv(c) && t in c.cur && MayUse(c, Root(h), t)
    requires write ==> c.roots.Keys == {h} && c.roots[h] == {t} && (c.phase.Counted? ==> c.weaks == map[])
    ensures CoreInv(Use(c, t, h, write))
  {
    hide Shape, Views, StrongOk, WeakOk, Seen, Cov, Holder, Visible, Good;
    Basics(c);
    var m := Perform(c, t, Root(h), c.cur[t]);
    PerformGood(c, m, Root(h), c.cur[t]);
    PerformGood(c, m, Root(h), c.acq[t]);
    assert m.acq == c.acq[t := c.acq[t]];
    GrownKeeps(c, m, t, Root(h));
    MarkKeeps(m, t, h, write);
  }

  function Marked(c: Core, e: nat, write: bool): Core {
    c.(uses := c.uses + {e}, writes := if write then c.writes + {e} else c.writes)
  }

  /** Recording the newest event as an access to the data. */
  lemma MarkKeeps(c: Core, t: Tid, h: Hid, write: bool)
    requires |c.src| > 0 && c.src[|c.src| - 1] == Root(h) && Knows(c, t, |c.src| - 1)
    requires write ==> c.roots.Keys == {h} && c.roots[h] == {t} && (c.phase.Counted? ==> c.weaks == map[])
    requires CoreInv(c)
    ensures CoreInv(Marked(c, |c.src| - 1, write))
  {
    hide Shape, Views, StrongOk, WeakOk, Seen, Cov, Holder, Visible;
    var e := |c.src| - 1;
    var d := Marked(c, e, write);
    RelabelOrders(c, d);
    RelabelRest(c, d);
    MarkShape(c, d, e);
    MarkVisible(c, d, t, h, write);
  }

  lemma MarkShape(c: Core, d: Core, e: nat)
    requires Shape(c) && Holder(c) && e < |c.src| && c.src[e].Root?
    requires d == c.(uses := c.uses + {e}, writes := d.writes) && d.writes <= c.writes + {e}
    ensures Shape(d) && Holder(d)
  {
  }

  lemma MarkVisible(c: Core, d: Core, t: Tid, h: Hid, write: bool)
    requires Shape(c) && Visible(c) && |c.src| > 0 && Knows(c, t, |c.src| - 1)
    requires d == c.(uses := d.uses, writes := if write then c.writes + {|c.src| - 1} else c.writes)
    requires write ==> c.roots.Keys == {h} && c.roots[h] == {t} && (c.phase.Counted? ==> c.weaks == map[])
    ensures Visible(d)
  {
    forall g, u | MayUse(d, Root(g), u) && u in d.cur ensures d.writes <= d.cur[u].ev {
      assert MayUse(c, Root(g), u);
    }
    forall w, u | d.phase.Counted? && MayUse(d, Wk(w), u) && u in d.cur
      ensures d.writes <= d.cur[u].ev + LastS(d).view.ev
    {
      assert MayUse(c, Wk(w), u);
    }
  }

  // ---- lending and giving back ----

  lemma ShareKeeps(c: Core, v: Via, t: Tid, u: Tid)
    requires CoreInv(c) && MayUse(c, v, t) && t in c.cur && u in c.cur && (v.Wk? || !c.phase.Held?)
    ensures CoreInv(Share(c, v, t, u))
  {
    hide Shape, StrongOk, WeakOk, Seen, Cov, Holder, Visible;
    assert Good(c, c.cur[t]);
    LearnKeeps(c, u, c.cur[t]);
    var m := Learn(c, u, c.cur[t]);
    assert MayUse(m, v, t) && Leq(m.cur[t], m.cur[u]);
    AddUserKeeps(m, v, t, u);
  }

  /** `u` may use whatever a thread it has observed may use. */
  lemma AddUserKeeps(c: Core, v: Via, t: Tid, u: Tid)
    requires CoreInv(c) && MayUse(c, v, t) && t in c.cur && u in c.cur && Leq(c.cur[t], c.cur[u])
    requires v.Wk? || !c.phase.Held?
    ensures CoreInv(AddUser(c, v, u))
  {
    hide Views, StrongOk, WeakOk, Seen, Cov, Holder, Visible;
    var d := AddUser(c, v, u);
    SetUsersOrders(c, d);
    SetUsersShape(c, d);
    AddUserCov(c, v, u);
    AddUserSeen(c, v, t, u);
    AddUserVisible(c, v, t, u);
  }

  function AddUser(c: Core, v: Via, u: Tid): Core
    requires v.h in (if v.Root? then c.roots else c.weaks)
  {
    match v
    case Root(h) => c.(roots := c.roots[h := c.roots[h] + {u}])
    case Wk(h) => c.(weaks := c.weaks[h := c.weaks[h] + {u}])
  }

  ghost predicate SetUsers(c: Core, d: Core) {
    && d == c.(roots := d.roots, weaks := d.weaks)
    && d.roots.Keys == c.roots.Keys && d.weaks.Keys == c.weaks.Keys
    && (forall h :: h in d.roots ==> d.roots[h] != {} && d.roots[h] <= c.cur.Keys)
    && (forall h :: h in d.weaks ==> d.weaks[h] != {} && d.weaks[h] <= c.cur.Keys)
  }

  lemma SetUsersShape(c: Core, d: Core)
    requires Shape(c) && SetUsers(c, d) && (c.phase.Held? ==> d.roots == c.roots)
    ensures Shape(d)
  {
    assert d.roots == map[] <==> d.roots.Keys == {};
    assert d.weaks == map[] <==> d.weaks.Keys == {};
    assert |d.roots| == |d.roots.Keys| && |c.roots| == |c.roots.Keys|;
  }

  lemma SetUsersOrders(c: Core, d: Core)
    requires Shape(c) && Views(c) && StrongOk(c) && WeakOk(c) && Holder(c) && SetUsers(c, d)
    ensures Views(d) && StrongOk(d) && WeakOk(d) && Holder(d)
  {
    SetUsersViews(c, d);
    SetUsersCounts(c, d);
  }

  lemma SetUsersViews(c: Core, d: Core)
    requires |c.strong| > 0 && |c.weak| > 0 && Views(c) && Holder(c) && SetUsers(c, d)
    ensures Views(d) && Holder(d)
  {
    forall v | Good(c, v) ensures Good(d, v) {}
  }

  lemma SetUsersCounts(c: Core, d: Core)
    requires StrongOk(c) && WeakOk(c) && SetUsers(c, d)
    ensures StrongOk(d) && WeakOk(d)
  {
    hide StrongOk, WeakOk;
    StrongSame(c, d);
    WeakSame(c, d);
  }

  lemma AddUserCov(c: Core, v: Via, u: Tid)
    requires Shape(c) && Cov(c) && v.h in (if v.Root? then c.roots else c.weaks)
    ensures Cov(AddUser(c, v, u))
  {
    var d := AddUser(c, v, u);
    forall e | 0 <= e < |d.src| ensures Covered(d, e) {
      assert Covered(c, e);
      if x :| MayUse(c, c.src[e], x) && Knows(c, x, e) {
        assert MayUse(d, d.src[e], x) && Knows(d, x, e);
      }
    }
  }

  lemma AddUserSeen(c: Core, v: Via, t: Tid, u: Tid)
    requires Seen(c) && MayUse(c, v, t) && t in c.cur && u in c.cur && Leq(c.cur[t], c.cur[u])
    ensures Seen(AddUser(c, v, u))
  {
    var d := AddUser(c, v, u);
    forall h, x, k | d.phase.Counted? && MayUse(d, Root(h), x) && x in d.cur && d.cur[x].s <= k < |d.strong|
      ensures h in d.strong[k].live
    {
      if x == u && v == Root(h) { assert MayUse(c, Root(h), t); } else { assert MayUse(c, Root(h), x); }
    }
    forall w, x, k | MayUse(d, Wk(w), x) && x in d.cur && d.cur[x].w <= k < |d.weak| ensures w in d.weak[k].live {
      if x == u && v == Wk(w) { assert MayUse(c, Wk(w), t); } else { assert MayUse(c, Wk(w), x); }
    }
  }

  lemma AddUserVisible(c: Core, v: Via, t: Tid, u: Tid)
    requires |c.strong| > 0 && Visible(c) && MayUse(c, v, t) && t in c.cur && u in c.cur && Leq(c.cur[t], c.cur[u])
    ensures Visible(AddUser(c, v, u))
  {
    var d := AddUser(c, v, u);
    forall h, x | MayUse(d, Root(h), x) && x in d.cur ensures d.writes <= d.cur[x].ev {
      if x == u && v == Root(h) { assert MayUse(c, Root(h), t); } else { assert MayUse(c, Root(h), x); }
    }
    forall w, x | d.phase.Counted? && MayUse(d, Wk(w), x) && x in d.cur
      ensures d.writes <= d.cur[x].ev + LastS(d).view.ev
    {
      if x == u && v == Wk(w) { assert MayUse(c, Wk(w), t); } else { assert MayUse(c, Wk(w), x); }
    }
  }

  lemma GiveBackKeeps(c: Core, v: Via, t: Tid, u: Tid)
    requires CoreInv(c) && MayUse(c, v, t) && MayUse(c, v, u) && t != u && t in c.cur && u in c.cur
    ensures CoreInv(GiveBack(c, v, t, u))
  {
    hide Shape, StrongOk, WeakOk, Seen, Cov, Holder, Visible;
    assert Good(c, c.cur[t]);
    LearnKeeps(c, u, c.cur[t]);
    var m := Learn(c, u, c.cur[t]);
    assert MayUse(m, v, t) && MayUse(m, v, u) && Leq(m.cur[t], m.cur[u]);
    DropUserKeeps(m, v, t, u);
  }

  function DropUser(c: Core, v: Via, t: Tid): Core
    requires v.h in (if v.Root? then c.roots else c.weaks)
  {
    match v
    case Root(h) => c.(roots := c.roots[h := c.roots[h] - {t}])
    case Wk(h) => c.(weaks := c.weaks[h := c.weaks[h] - {t}])
  }

  /** A user may leave once another user of the same handle has observed all it has. */
  lemma DropUserKeeps(c: Core, v: Via, t: Tid, u: Tid)
    requires CoreInv(c) && MayUse(c, v, t) && MayUse(c, v, u) && t != u && t in c.cur && u in c.cur
    requires Leq(c.cur[t], c.cur[u])
    ensures CoreInv(DropUser(c, v, t))
  {
    hide Views, StrongOk, WeakOk, Seen, Cov, Holder, Visible;
    var d := DropUser(c, v, t);
    assert MayUse(d, v, u);
    SetUsersOrders(c, d);
    if c.phase.Held? {
      assert v.Wk?;
    } else {
      SetUsersShape(c, d);
    }
    DropUserCov(c, v, t, u);
    FewerUsers(c, d);
  }

  lemma DropUserCov(c: Core, v: Via, t: Tid, u: Tid)
    requires Shape(c) && Cov(c) && MayUse(c, v, t) && MayUse(c, v, u) && t != u && t in c.cur && u in c.cur
    requires Leq(c.cur[t], c.cur[u])
    ensures Cov(DropUser(c, v, t))
  {
    var d := DropUser(c, v, t);
    forall e | 0 <= e < |d.src| ensures Covered(d, e) {
      assert Covered(c, e);
      if x :| MayUse(c, c.src[e], x) && Knows(c, x, e) {
        if x == t && c.src[e] == v {
          assert MayUse(d, d.src[e], u) && Knows(d, u, e);
        } else {
          assert MayUse(d, d.src[e], x) && Knows(d, x, e);
        }
      }
    }
  }

  lemma FewerUsers(c: Core, d: Core)
    requires |c.strong| > 0 && Seen(c) && Visible(c) && d == c.(roots := d.roots, weaks := d.weaks)
    requires forall v, x :: MayUse(d, v, x) ==> MayUse(c, v, x)
    ensures Seen(d) && Visible(d)
  {
    forall h, x, k | d.phase.Counted? && MayUse(d, Root(h), x) && x in d.cur && d.cur[x].s <= k < |d.strong|
      ensures h in d.strong[k].live
    {
      assert MayUse(c, Root(h), x);
    }
    forall w, x, k | MayUse(d, Wk(w), x) && x in d.cur && d.cur[x].w <= k < |d.weak| ensures w in d.weak[k].live {
      assert MayUse(c, Wk(w), x);
    }
    forall h, x | MayUse(d, Root(h), x) && x in d.cur ensures d.writes <= d.cur[x].ev {
      assert MayUse(c, Root(h), x);
    }
    forall w, x | d.phase.Counted? && MayUse(d, Wk(w), x) && x in d.cur
      ensures d.writes <= d.cur[x].ev + LastS(d).view.ev
    {
      assert MayUse(c, Wk(w), x);
    }
  }
}
