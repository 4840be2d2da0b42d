/** Steps that move no counter keep the invariant. */
module ArcQuietSteps {
  import opened Common
  import opened ArcState
  import opened ArcCore
  import opened ArcCoreKeeps
  import opened ArcSteps
  import opened ArcInvariant
  import opened ArcFrame

  /** What a quiet step of `t` must show beyond the core: only `t`'s own place in the program. */
  ghost predicate QuietSide(s: State, d: State, t: Tid)
    requires t in s.pc && t in d.pc
  {
    && d.freed == s.freed && (FreePc(d.pc[t]) <==> FreePc(s.pc[t]))
    && d.data == s.data && d.consumed == s.consumed && (s.pc[t].CycReady? ==> d.pc[t].CycReady?)
    && d.fromNew == s.fromNew && d.returned == s.returned && d.counted.0 == d.counted.1
    && (d.intoOnly ==> s.intoOnly)
    && (d.c.phase.Held? && d.c.phase.t == t ==> KeeperPc(d, d.pc[t]))
    && s.nones <= d.nones
    && (forall w :: w in d.nones && w !in s.nones ==> w < s.c.nextH && (s.fromNew ==> !s.c.phase.Counted?))
  }

  lemma QuietLocal(s: State, d: State, t: Tid)
    requires Local(s) && NewestFacts(s.c) && Sane(d) && Quiet(s, d, t) && QuietSide(s, d, t) && PcOk(d, t)
    ensures Local(d)
  {
    hide Pcs, Frees, Datas, Bounds, News, Intos, NewestFacts, QuietSide;
    QuietPcs(s, d, t);
    QuietFrees(s, d, t);
    QuietNews(s, d, t);
  }

  lemma QuietSideData(s: State, d: State, t: Tid)
    requires t in s.pc && t in d.pc && QuietSide(s, d, t)
    ensures d.freed == s.freed && d.data == s.data
  {
  }

  lemma QuietPcs(s: State, d: State, t: Tid)
    requires Sane(s) && Pcs(s) && Frees(s) && NewestFacts(s.c) && Sane(d) && Quiet(s, d, t) && PcOk(d, t)
    ensures Pcs(d)
  {
    hide NewestFacts, PcOk;
    QuietOthers(s, d, t);
  }

  lemma QuietFrees(s: State, d: State, t: Tid)
    requires Sane(s) && Frees(s) && Datas(s) && Bounds(s) && Sane(d) && Quiet(s, d, t) && QuietSide(s, d, t)
    ensures Frees(d) && Datas(d) && Bounds(d)
  {
    hide Datas, Bounds, Quiet, QuietSide, Frees;
    QuietDatas(s, d, t);
    QuietBounds(s, d, t);
    QuietOnce(s, d, t);
  }

  lemma QuietBounds(s: State, d: State, t: Tid)
    requires Sane(s) && Bounds(s) && Sane(d) && Quiet(s, d, t)
    ensures Bounds(d)
  {
    hide Leq;
    assert d.pc.Keys == s.pc.Keys;
  }

  lemma QuietOnce(s: State, d: State, t: Tid)
    requires Sane(s) && Frees(s) && Sane(d) && Quiet(s, d, t) && QuietSide(s, d, t)
    ensures Frees(d)
  {
    hide Frees, Quiet, QuietSide;
    QuietBasics(s, d, t);
    SameFrees(s, d, t);
  }

  lemma QuietBasics(s: State, d: State, t: Tid)
    requires Sane(s) && Sane(d) && Quiet(s, d, t) && QuietSide(s, d, t)
    ensures t in s.pc && t in d.pc && d.pc == s.pc[t := d.pc[t]] && d.c.weak == s.c.weak
    ensures d.freed == s.freed && (FreePc(d.pc[t]) <==> FreePc(s.pc[t]))
  {
    hide Leq;
  }

  lemma SameFrees(s: State, d: State, t: Tid)
    requires Sane(s) && Frees(s) && Sane(d) && t in s.pc && t in d.pc && d.pc == s.pc[t := d.pc[t]]
    requires LastW(d.c).val == LastW(s.c).val && d.freed == s.freed && (FreePc(d.pc[t]) <==> FreePc(s.pc[t]))
    ensures Frees(d)
  {
    if u :| u in s.pc && FreePc(s.pc[u]) { assert u in d.pc && FreePc(d.pc[u]); }
  }

  lemma QuietDatas(s: State, d: State, t: Tid)
    requires Sane(s) && Datas(s) && Sane(d) && Quiet(s, d, t) && QuietSide(s, d, t)
    ensures Datas(d)
  {
    hide Leq;
    if u :| u in s.pc && s.pc[u].CycReady? { assert d.pc[u].CycReady?; }
  }

  lemma QuietNews(s: State, d: State, t: Tid)
    requires Sane(s) && News(s) && Intos(s) && Quiet(s, d, t) && QuietSide(s, d, t)
    ensures News(d) && Intos(d)
  {
    if s.fromNew { RevivedGrows(s.c, d.c); }
  }

  lemma RevivedGrows(c: Core, d: Core)
    requires Revived(c) && d.strong == c.strong && d.cur.Keys == c.cur.Keys
    requires forall v, u :: MayUse(d, v, u) ==> MayUse(c, v, u)
    requires forall u :: u in c.cur ==> c.cur[u].s <= d.cur[u].s
    ensures Revived(d)
  {
    forall m, v, u | 0 <= m < |d.strong| - 1 && d.strong[m].live == {} && MayUse(d, v, u) && u in d.cur
      ensures m < d.cur[u].s
    {
      assert MayUse(c, v, u);
    }
  }

  // ---- facts about the cores of quiet steps ----

  ghost predicate QuietCore(c: Core, d: Core) {
    && CoreInv(d)
    && d == c.(cur := d.cur, acq := d.acq, src := d.src, uses := d.uses, writes := d.writes, phase := d.phase)
    && d.cur.Keys == c.cur.Keys == d.acq.Keys == c.acq.Keys
    && (forall u :: u in c.cur ==> Leq(c.cur[u], d.cur[u]) && Leq(c.acq[u], d.acq[u]))
    && (forall u :: u in d.cur ==> d.cur[u].s < |d.strong|)
  }

  lemma InRange(c: Core)
    requires CoreInv(c)
    ensures |c.strong| > 0 && |c.weak| > 0 && c.cur.Keys == c.acq.Keys && forall u :: u in c.cur ==> c.cur[u].s < |c.strong|
  {
    hide CoreInv;
    Newest(c);
  }

  lemma QuietLoadS(c: Core, t: Tid, via: Via, k: nat, acquire: bool)
    requires CoreInv(c) && t in c.cur && MayUse(c, via, t) && c.cur[t].s <= k < |c.strong|
    ensures t in c.acq && QuietCore(c, LoadS(c, t, via, k, acquire))
  {
    hide CoreInv, NewestFacts;
    InRange(c);
    LoadSKeeps(c, t, via, k, acquire);
    InRange(LoadS(c, t, via, k, acquire));
  }

  lemma QuietLoadW(c: Core, t: Tid, via: Via, k: nat, acquire: bool)
    requires CoreInv(c) && t in c.cur && MayUse(c, via, t) && c.cur[t].w <= k < |c.weak|
    ensures t in c.acq && QuietCore(c, LoadW(c, t, via, k, acquire))
  {
    hide CoreInv, NewestFacts;
    InRange(c);
    LoadWKeeps(c, t, via, k, acquire);
    InRange(LoadW(c, t, via, k, acquire));
  }

  lemma QuietUse(c: Core, t: Tid, h: Hid, write: bool)
    requires CoreInv(c) && t in c.cur && MayUse(c, Root(h), t)
    requires write ==> c.roots.Keys == {h} && c.roots[h] == {t} && (c.phase.Counted? ==> c.weaks == map[])
    ensures QuietCore(c, Use(c, t, h, write))
  {
    hide CoreInv;
    Newest(c);
    UseKeeps(c, t, h, write);
    Newest(Use(c, t, h, write));
  }

  lemma QuietFence(c: Core, t: Tid)
    requires CoreInv(c) && t in c.cur
    ensures t in c.acq && QuietCore(c, Fence(c, t))
  {
    hide CoreInv;
    Newest(c);
    FenceKeeps(c, t);
    Newest(Fence(c, t));
  }

  /** A step of `t` whose core is quiet and whose event, if any, went through `v`. */
  lemma QuietBy(s: State, d: State, t: Tid, v: Via)
    requires Sane(s) && t in s.pc && QuietCore(s.c, d.c) && d.pc == s.pc[t := if t in d.pc then d.pc[t] else Idle]
    requires MayUse(s.c, v, t) && d.overS == s.overS && d.overW == s.overW && d.freed == s.freed
    requires d.c.phase == s.c.phase
    requires v.Root? || d.data == s.data
    ensures Sane(d) && Quiet(s, d, t)
  {
    hide CoreInv, Leq;
  }

  // ---- the loads ----

  lemma StepLoadS(s: State, d: State, t: Tid, v: Via, k: nat, acquire: bool)
    requires Inv(s) && t in s.pc && t in d.pc && MayUse(s.c, v, t) && s.c.cur[t].s <= k < |s.c.strong| && t in s.c.acq
    requires d.c == LoadS(s.c, t, v, k, acquire) && d.pc == s.pc[t := d.pc[t]]
    requires d.overS == s.overS && d.overW == s.overW && QuietSide(s, d, t)
    requires Sane(d) ==> PcOk(d, t)
    ensures Inv(d)
  {
    hide CoreInv, Pcs, Frees, Datas, Bounds, News, Intos, QuietSide, PcOk;
    QuietLoadS(s.c, t, v, k, acquire);
    Newest(s.c);
    QuietSideData(s, d, t);
    QuietBy(s, d, t, v);
    QuietLocal(s, d, t);
  }

  lemma StepLoadW(s: State, d: State, t: Tid, v: Via, k: nat, acquire: bool)
    requires Inv(s) && t in s.pc && t in d.pc && MayUse(s.c, v, t) && s.c.cur[t].w <= k < |s.c.weak| && t in s.c.acq
    requires d.c == LoadW(s.c, t, v, k, acquire) && d.pc == s.pc[t := d.pc[t]]
    requires d.overS == s.overS && d.overW == s.overW && QuietSide(s, d, t)
    requires Sane(d) ==> PcOk(d, t)
    ensures Inv(d)
  {
    hide CoreInv, Pcs, Frees, Datas, Bounds, News, Intos, QuietSide, PcOk;
    QuietLoadW(s.c, t, v, k, acquire);
    Newest(s.c);
    QuietSideData(s, d, t);
    QuietBy(s, d, t, v);
    QuietLocal(s, d, t);
  }

  lemma StepUse(s: State, d: State, t: Tid, h: Hid, write: bool)
    requires Inv(s) && t in s.pc && t in d.pc && MayUse(s.c, Root(h), t)
    requires write ==> s.c.roots.Keys == {h} && s.c.roots[h] == {t} && (s.c.phase.Counted? ==> s.c.weaks == map[])
    requires d.c == Use(s.c, t, h, write) && d.pc == s.pc[t := d.pc[t]]
    requires d.overS == s.overS && d.overW == s.overW && d.freed == s.freed
    ensures CoreInv(d.c) && Sane(d) && Quiet(s, d, t) && NewestFacts(s.c) && NewestFacts(d.c)
  {
    hide CoreInv, Pcs, Frees, Datas, Bounds, News, Intos;
    QuietUse(s.c, t, h, write);
    Newest(s.c);
    Newest(d.c);
    QuietBy(s, d, t, Root(h));
  }

  /** Only the program counter of `t` changes. */
  lemma StepPc(s: State, d: State, t: Tid, p: Pc)
    requires t in s.pc && t in d.pc && d == Go(s, s.c, t, p) && QuietSide(s, d, t)
    requires Sane(d) && PcOk(d, t) && Inv(s)
    ensures Inv(d)
  {
    hide CoreInv, Pcs, Frees, Datas, Bounds, News, Intos, QuietSide, PcOk;
    Newest(s.c);
    QuietLocal(s, d, t);
  }

  lemma AtPc(s: State, t: Tid)
    requires Inv(s) && t in s.pc
    ensures Sane(s) && PcOk(s, t) && NewestFacts(s.c) && t in s.c.cur && t in s.c.acq
    ensures s.counted.0 == s.counted.1
    ensures s.c.phase.Held? && s.c.phase.t == t ==> KeeperPc(s, s.pc[t])
    ensures FreePc(s.pc[t]) ==> forall u :: u in s.pc && FreePc(s.pc[u]) ==> u == t
  {
    hide CoreInv, PcOk, NewestFacts;
    Newest(s.c);
  }
}
