/** A step of one thread leaves what is known about every other thread in place. */
module ArcFrame {
  import opened Common
  import opened ArcState
  import opened ArcCore
  import opened ArcSteps
  import opened ArcInvariant

  /** Nothing that thread `u` relies on changed. */
  ghost predicate Undisturbed(s: State, d: State, u: Tid)
    requires Sane(s) && Sane(d)
  {
    u in s.pc && u in d.pc && SameThread(s, d, u) && SameHandles(s, d, u) && SameSole(s, d, u)
  }

  ghost predicate SameThread(s: State, d: State, u: Tid)
    requires Sane(s) && Sane(d) && u in s.pc && u in d.pc
  {
    && d.pc[u] == s.pc[u]
    && (d.c.lock == Some(u) <==> s.c.lock == Some(u))
    && (d.c.phase.Held? && d.c.phase.t == u <==> s.c.phase.Held? && s.c.phase.t == u)
    && (u in d.overS + d.overW ==> u in s.overS + s.overW)
    && Leq(s.c.cur[u], d.c.cur[u]) && Leq(s.c.acq[u], d.c.acq[u]) && d.c.cur[u].s < |d.c.strong|
    && (FreePc(s.pc[u]) ==> LastW(d.c) == LastW(s.c) && d.freed == s.freed)
    && (s.c.phase.Released? ==> d.c.phase.Released? && |d.c.strong| == |s.c.strong|)
  }

  ghost predicate SameHandles(s: State, d: State, u: Tid) {
    && (forall h :: MayUse(s.c, Root(h), u) ==>
          MayUse(d.c, Root(h), u) && d.c.phase == s.c.phase && (s.c.roots[h] == {u} ==> d.c.roots[h] == {u}))
    && (forall w :: MayUse(s.c, Wk(w), u) ==> MayUse(d.c, Wk(w), u))
  }

  ghost predicate SameSole(s: State, d: State, u: Tid) {
    && (OnlyRoot(s.c, u) && (!s.c.phase.Counted? || s.c.weaks == map[]) ==>
          d.c.roots == s.c.roots && d.c.phase == s.c.phase && d.data == s.data)
    && (OnlyRoot(s.c, u) && s.c.weaks == map[] ==>
          d.c.weaks == map[] && d.c.src == s.c.src && d.c.uses == s.c.uses && (s.c.lock == None ==> d.c.lock == None))
  }

  /** `u` alone uses the only root. */
  predicate OnlyRoot(c: Core, u: Tid) { |c.roots| == 1 && forall h :: h in c.roots ==> c.roots[h] == {u} }

  lemma OnlyRootIs(c: Core, u: Tid, h: Hid)
    requires c.roots == map[h := {u}]
    ensures OnlyRoot(c, u)
  {
    assert |c.roots.Keys| == 1;
  }

  lemma OtherKeeps(s: State, d: State, u: Tid)
    requires Sane(s) && Sane(d) && Undisturbed(s, d, u) && PcOk(s, u)
    requires s.c.lock.Some? ==> s.c.weaks == map[]
    ensures PcOk(d, u)
  {
    if HeldPc(s.pc[u]) || (s.pc[u].UqLoaded? && s.pc[u].excl && s.pc[u].uniq) {
      OnlyRootIs(s.c, u, s.pc[u].h);
    } else if s.pc[u].CycReady? {
      OnlyRootIs(s.c, u, s.pc[u].b);
    } else if s.pc[u].Mut? {
      OnlyRootIs(s.c, u, s.pc[u].h);
    }
  }

  // ---- what the core invariant tells about the newest writes ----

  ghost predicate NewestFacts(c: Core) {
    && |c.strong| > 0 && |c.weak| > 0 && c.cur.Keys == c.acq.Keys
    && LastS(c).val == |Live(c)| && LastS(c).live == Live(c)
    && (LastW(c).locked <==> c.lock.Some?)
    && (LastW(c).locked ==> LastW(c).val == USIZE_MAX)
    && (!LastW(c).locked ==> LastW(c).val == |c.weaks.Keys| + if c.phase.Released? then 0 else 1)
    && (c.lock.Some? ==> c.phase.Counted? && c.weaks == map[] && c.lock.value in c.cur)
    && (forall h :: h in c.roots ==> c.roots[h] != {} && c.roots[h] <= c.cur.Keys && h < c.nextH)
    && (forall h :: h in c.weaks ==> c.weaks[h] != {} && c.weaks[h] <= c.cur.Keys && h < c.nextH)
    && c.roots.Keys !! c.weaks.Keys
    && (c.phase.Counted? ==> c.roots != map[])
    && (c.phase.Released? ==> c.roots == map[])
    && (c.phase.Held? || c.phase.UniqueB? || c.phase.CyclicB? ==> |c.roots| == 1)
    && (c.phase.UniqueB? || c.phase.CyclicB? ==> |c.strong| == 1)
    && (c.phase.Held? ==> OnlyRoot(c, c.phase.t) && c.phase.t in c.cur)
    && (forall t :: t in c.cur ==> c.cur[t].s < |c.strong| && c.cur[t].w < |c.weak|)
  }

  lemma Newest(c: Core)
    requires CoreInv(c)
    ensures NewestFacts(c)
  {
    hide Views, StrongOk, WeakOk, Seen, Cov, Holder, Visible;
    NewestCounts(c);
    InOrders(c);
  }

  lemma NewestCounts(c: Core)
    requires StrongOk(c) && WeakOk(c)
    ensures LastS(c).val == |Live(c)| && LastS(c).live == Live(c)
    ensures LastW(c).locked <==> c.lock.Some?
    ensures LastW(c).locked ==> LastW(c).val == USIZE_MAX
    ensures !LastW(c).locked ==> LastW(c).val == |c.weaks.Keys| + if c.phase.Released? then 0 else 1
  {
    assert WVal(LastW(c));
  }

  lemma InOrders(c: Core)
    requires Views(c)
    ensures forall t :: t in c.cur ==> c.cur[t].s < |c.strong| && c.cur[t].w < |c.weak|
  {
    forall t | t in c.cur ensures c.cur[t].s < |c.strong| && c.cur[t].w < |c.weak| { assert Good(c, c.cur[t]); }
  }

  // ---- steps that change no counter and no handle ----

  /** Thread `t`, if it acted at all, acted through a handle it may use. */
  ghost predicate Quiet(s: State, d: State, t: Tid) {
    && Sane(s) && Sane(d) && t in s.pc && t in d.pc
    && d.c == s.c.(cur := d.c.cur, acq := d.c.acq, src := d.c.src, uses := d.c.uses, writes := d.c.writes, phase := d.c.phase)
    && (d.c.phase == s.c.phase || (s.c.phase.Held? && s.c.phase.t == t && d.c.phase == Held(t, true)))
    && d.pc == s.pc[t := d.pc[t]] && d.c.cur.Keys == s.c.cur.Keys
    && (forall u :: u in s.c.cur ==> Leq(s.c.cur[u], d.c.cur[u]) && Leq(s.c.acq[u], d.c.acq[u]))
    && (forall u :: u in d.c.cur ==> d.c.cur[u].s < |d.c.strong|)
    && d.overS == s.overS && d.overW == s.overW
    && (NoEvent(s, d) || exists v :: MayUse(s.c, v, t) && (v.Root? || (d.data == s.data && d.c.phase == s.c.phase)))
    && (d.freed == s.freed || FreePc(s.pc[t]))
  }

  predicate NoEvent(s: State, d: State) {
    d.c.src == s.c.src && d.c.uses == s.c.uses && d.data == s.data && d.c.phase == s.c.phase
  }

  lemma QuietOthers(s: State, d: State, t: Tid)
    requires Sane(s) && Sane(d) && d.pc.Keys == s.pc.Keys
    requires Quiet(s, d, t) && NewestFacts(s.c) && Pcs(s) && Frees(s)
    ensures forall u :: u in s.pc && u != t ==> PcOk(d, u)
  {
    hide Quiet, NewestFacts, Undisturbed, PcOk;
    LockFacts(s.c);
    forall u | u in s.pc && u != t ensures PcOk(d, u) {
      QuietOther(s, d, t, u);
      OtherKeeps(s, d, u);
    }
  }

  lemma LockFacts(c: Core)
    requires NewestFacts(c)
    ensures c.lock.Some? ==> c.weaks == map[]
    ensures c.phase.Held? ==> OnlyRoot(c, c.phase.t)
  {
  }

  lemma QuietOther(s: State, d: State, t: Tid, u: Tid)
    requires Quiet(s, d, t) && Frees(s) && u in s.pc && u != t
    requires s.c.phase.Held? ==> OnlyRoot(s.c, s.c.phase.t)
    ensures Undisturbed(s, d, u)
  {
    hide SameThread, SameHandles, SameSole;
    QuietThread(s, d, t, u);
    QuietHandles(s, d, t, u);
    QuietSole(s, d, t, u);
  }

  lemma QuietThread(s: State, d: State, t: Tid, u: Tid)
    requires Quiet(s, d, t) && Frees(s) && u in s.pc && u != t
    ensures SameThread(s, d, u)
  {
  }

  lemma QuietHandles(s: State, d: State, t: Tid, u: Tid)
    requires Quiet(s, d, t) && u in s.pc && u != t
    requires s.c.phase.Held? ==> OnlyRoot(s.c, s.c.phase.t)
    ensures SameHandles(s, d, u)
  {
    hide Leq;
  }

  lemma QuietSole(s: State, d: State, t: Tid, u: Tid)
    requires Quiet(s, d, t) && u in s.pc && u != t
    ensures SameSole(s, d, u)
  {
    hide Leq;
    if OnlyRoot(s.c, u) { NotOnly(s.c, u, t); }
  }

  /** If `u` alone uses the only root, another thread can only use `Weak` handles. */
  lemma NotOnly(c: Core, u: Tid, t: Tid)
    requires OnlyRoot(c, u) && u != t
    ensures forall v :: MayUse(c, v, t) ==> v.Wk? && c.weaks != map[]
  {
  }

  // ---- steps that move a counter ----

  /** Thread `t` acted through handle `v`; it only touched what it alone uses, or added a handle. */
  ghost predicate Acted(s: State, d: State, t: Tid, v: Via) {
    && Sane(s) && Sane(d) && t in s.pc && t in d.pc && MayUse(s.c, v, t)
    && d.pc == s.pc[t := d.pc[t]] && d.c.cur.Keys == s.c.cur.Keys && d.freed == s.freed
    && d.overS <= s.overS + {t} && d.overW <= s.overW + {t}
    && (forall u :: u in s.c.cur ==> Leq(s.c.cur[u], d.c.cur[u]) && Leq(s.c.acq[u], d.c.acq[u]))
    && (forall u :: u in d.c.cur ==> d.c.cur[u].s < |d.c.strong|)
    && (forall h :: h in s.c.roots ==> s.c.roots[h] == {t} || (h in d.c.roots && d.c.roots[h] == s.c.roots[h]))
    && (forall h :: h in s.c.weaks ==> s.c.weaks[h] == {t} || (h in d.c.weaks && d.c.weaks[h] == s.c.weaks[h]))
    && (d.c.lock == s.c.lock || (s.c.lock in {None, Some(t)} && d.c.lock in {None, Some(t)}))
    && (v.Root? || (d.c.phase == s.c.phase && d.data == s.data))
    && (v.Root? || s.c.phase.Counted? || d.c.roots == s.c.roots)
    && (d.c.phase == s.c.phase || (OnlyRoot(s.c, t) && (d.c.phase.Held? ==> d.c.phase.t == t) && (s.c.phase.Held? ==> s.c.phase.t == t)))
    && (s.c.phase.Released? ==> d.c.phase.Released? && |d.c.strong| == |s.c.strong|)
  }

  lemma ActedOthers(s: State, d: State, t: Tid, v: Via)
    requires Sane(s) && Sane(d) && d.pc.Keys == s.pc.Keys
    requires Acted(s, d, t, v) && NewestFacts(s.c) && Pcs(s)
    ensures forall u :: u in s.pc && u != t ==> PcOk(d, u)
  {
    hide Acted, NewestFacts, Undisturbed, PcOk;
    LockFacts(s.c);
    forall u | u in s.pc && u != t ensures PcOk(d, u) {
      ActedOther(s, d, t, v, u);
      OtherKeeps(s, d, u);
    }
  }

  lemma ActedOther(s: State, d: State, t: Tid, v: Via, u: Tid)
    requires Sane(s) && Sane(d) && Acted(s, d, t, v) && NewestFacts(s.c) && u in s.pc && u != t && PcOk(s, u)
    ensures Undisturbed(s, d, u)
  {
    hide SameThread, SameHandles, SameSole, PcOk;
    HandleCounts(s.c, v, t);
    ActedThread(s, d, t, v, u);
    ActedHandles(s, d, t, v, u);
    ActedSole(s, d, t, v, u);
  }

  /** While any handle exists the weak count is not 0. */
  lemma HandleCounts(c: Core, v: Via, t: Tid)
    requires NewestFacts(c) && MayUse(c, v, t)
    ensures |c.weak| > 0 && LastW(c).val != 0
  {
    if v.Wk? {
      assert v.h in c.weaks.Keys;
    } else {
      assert c.roots != map[];
    }
  }

  lemma ActedThread(s: State, d: State, t: Tid, v: Via, u: Tid)
    requires Sane(s) && Sane(d) && Acted(s, d, t, v) && u in s.pc && u != t && PcOk(s, u) && LastW(s.c).val != 0
    ensures SameThread(s, d, u)
  {
    hide OnlyRoot, MayUse;
    assert !FreePc(s.pc[u]);
  }

  lemma ActedHandles(s: State, d: State, t: Tid, v: Via, u: Tid)
    requires Acted(s, d, t, v) && u in s.pc && u != t
    ensures SameHandles(s, d, u)
  {
    hide Leq;
  }

  lemma ActedSole(s: State, d: State, t: Tid, v: Via, u: Tid)
    requires Acted(s, d, t, v) && u in s.pc && u != t
    ensures SameSole(s, d, u)
  {
    hide Leq;
    if OnlyRoot(s.c, u) { NotOnly(s.c, u, t); }
  }

  // ---- handles lent and given back ----

  /** Idle thread `t` let others observe what it has, and changed the users of `v` only. */
  ghost predicate Lent(s: State, d: State, t: Tid, v: Via) {
    && Sane(s) && Sane(d) && t in s.pc && MayUse(s.c, v, t) && d == s.(c := d.c)
    && d.c == s.c.(cur := d.c.cur, roots := d.c.roots, weaks := d.c.weaks)
    && (forall u :: u in s.c.cur && u in d.c.cur ==> Leq(s.c.cur[u], d.c.cur[u]))
    && (forall u :: u in d.c.cur ==> d.c.cur[u].s < |d.c.strong|)
    && (v.Wk? ==> d.c.roots == s.c.roots) && (v.Root? ==> d.c.weaks == s.c.weaks)
    && d.c.roots.Keys == s.c.roots.Keys && d.c.weaks.Keys == s.c.weaks.Keys
    && (forall h :: h in s.c.roots && h != v.h ==> d.c.roots[h] == s.c.roots[h])
    && (forall x, u :: MayUse(s.c, x, u) && u != t ==> MayUse(d.c, x, u))
  }

  lemma LentKeeps(s: State, d: State, t: Tid, v: Via)
    requires Sane(s) && Sane(d) && t in s.pc && d.pc == s.pc
    requires Lent(s, d, t, v) && NewestFacts(s.c) && Pcs(s) && s.pc[t] == Idle
    ensures Pcs(d)
  {
    hide Lent, NewestFacts, Undisturbed, PcOk;
    LockFacts(s.c);
    forall u | u in d.pc ensures PcOk(d, u) {
      if u == t {
        LentIdle(s, d, t, v);
      } else {
        LentOther(s, d, t, v, u);
        OtherKeeps(s, d, u);
      }
    }
    LentIdle(s, d, t, v);
  }

  lemma LentIdle(s: State, d: State, t: Tid, v: Via)
    requires Sane(s) && Sane(d) && Lent(s, d, t, v) && PcOk(s, t) && s.pc[t] == Idle
    ensures PcOk(d, t) && d.pc == s.pc && d.c.phase == s.c.phase && d.overS == s.overS && d.overW == s.overW
  {
  }

  lemma LentOther(s: State, d: State, t: Tid, v: Via, u: Tid)
    requires Sane(s) && Sane(d) && Lent(s, d, t, v) && u in s.pc && u != t
    ensures Undisturbed(s, d, u) && d.pc.Keys == s.pc.Keys
  {
    if OnlyRoot(s.c, u) { NotOnly(s.c, u, t); }
  }
}
