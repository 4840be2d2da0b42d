/** When the value 0 of `strong` is final: exactly when it does not come from a construction that is
    still under way. */
module ArcFinal {
  import opened Common
  import opened ArcState
  import opened ArcCore
  import opened ArcSteps
  import opened ArcInvariant
  import opened ArcFrame
  import opened ArcTheorems
  import opened ArcGuarantees

  lemma CountIs(s: State)
    requires Inv(s)
    ensures |s.c.strong| > 0 && (LastS(s.c).val == 0 <==> !s.c.phase.Counted?)
  {
    hide CoreInv, Local;
    Newest(s.c);
    assert |s.c.roots.Keys| == |s.c.roots|;
  }

  /** From 0, exactly three steps lead to another value. */
  lemma OnlyTheseRevive(s: State, l: Label)
    requires Reachable(s) && Enabled(s, l) && LastS(s.c).val == 0
    ensures |Next(s, l).c.strong| > 0 && (LastS(Next(s, l).c).val > 0 <==> Revives(l))
  {
    hide Inv, Reachable, Enabled, Next;
    ReachableInv(s);
    StepKeeps(s, l);
    CountIs(s);
    CountIs(Next(s, l));
    StepEffect(s, l);
  }

  // ---- the `Weak` handles of a moment, and their clones ----

  function KinStep(s: State, l: Label, ws: set<Hid>): set<Hid> {
    if l.CloneWeak? && l.v.Wk? && l.v.h in ws then ws + {s.c.nextH} else ws
  }

  /** `ws`, and everything cloned from it in the course of `ls`. */
  ghost function Kin(s: State, ls: seq<Label>, ws: set<Hid>): set<Hid>
    decreases |ls|
  {
    if ls == [] then ws else Kin(Next(s, ls[0]), ls[1..], KinStep(s, ls[0], ws))
  }

  /** As long as one of `ws` exists, `strong` has been taken to 0 for good. */
  ghost predicate Settled(s: State, ws: set<Hid>) {
    (forall w :: w in ws ==> w < s.c.nextH) && forall w :: w in ws && w in s.c.weaks ==> Over(s.c.phase)
  }

  lemma SettledStep(s: State, l: Label, ws: set<Hid>)
    requires Inv(s) && Enabled(s, l) && Settled(s, ws)
    ensures Settled(Next(s, l), KinStep(s, l, ws))
  {
    hide Inv, Enabled, Next;
    var d := Next(s, l);
    StepEffect(s, l);
    if l.CloneWeak? { ClonesExisting(s, l); }
    if Revives(l) { RevivesAlone(s, l); }
  }

  lemma ClonesExisting(s: State, l: Label)
    requires Enabled(s, l) && l.CloneWeak?
    ensures l.v.Wk? ==> l.v.h in s.c.weaks
    ensures s.c.nextH < Next(s, l).c.nextH
  {
    hide Join;
  }

  /** `make_mut` stores 1 only when there is no `Weak`; the others end a construction. */
  lemma RevivesAlone(s: State, l: Label)
    requires Inv(s) && Enabled(s, l) && Revives(l)
    ensures s.c.weaks == map[] || !Over(s.c.phase)
    ensures Next(s, l).c.weaks == s.c.weaks
  {
    hide Inv, Enabled, Next;
    RevivesFrom(s, l);
    if l.RestoreStrong? { WindowIsLast(s, l.t); }
    if l.CycPublish? { CycReadyFacts(s, l.t); }
  }

  lemma RevivesFrom(s: State, l: Label)
    requires Enabled(s, l) && Revives(l)
    ensures l.t in s.pc && Next(s, l).c.weaks == s.c.weaks
    ensures l.RestoreStrong? ==> s.pc[l.t].Restore?
    ensures l.IntoArc? ==> s.c.phase.UniqueB?
    ensures l.CycPublish? ==> s.pc[l.t].CycReady?
  {
    hide Join, NextShared, EnabledShared;
  }

  lemma CycReadyFacts(s: State, t: Tid)
    requires Inv(s) && t in s.pc && s.pc[t].CycReady?
    ensures s.c.phase.CyclicB?
  {
    hide CoreInv, Frees, Datas, Bounds, News, Intos;
    assert PcOk(s, t);
  }

  lemma {:induction false} SettledRun(s: State, ls: seq<Label>, ws: set<Hid>)
    requires Inv(s) && Runs(s, ls) && Settled(s, ws)
    ensures Settled(After(s, ls), Kin(s, ls, ws)) && ws <= Kin(s, ls, ws)
    decreases |ls|
  {
    hide Inv, Enabled, Next, Settled;
    if ls != [] {
      StepKeeps(s, ls[0]);
      SettledStep(s, ls[0], ws);
      SettledRun(Next(s, ls[0]), ls[1..], KinStep(s, ls[0], ws));
    }
  }

  /** Once `strong` has been taken to 0, whatever made the allocation and whatever happens next: as
      long as a `Weak` of this moment, or a clone of one, still exists, `strong` stays 0; and no
      `upgrade` through any of them succeeds. */
  lemma ZeroIsFinal(s: State, ls: seq<Label>, w: Hid)
    requires Reachable(s) && Over(s.c.phase) && Runs(s, ls) && w in Kin(s, ls, s.c.weaks.Keys)
    ensures CannotUpgrade(After(s, ls), w)
    ensures w in After(s, ls).c.weaks ==> |After(s, ls).c.strong| > 0 && LastS(After(s, ls).c).val == 0
  {
    hide Inv, Reachable, Enabled, Next, Kin, Runs, After;
    ReachableInv(s);
    StartSettled(s);
    SettledRun(s, ls, s.c.weaks.Keys);
    var d := After(s, ls);
    RunKeeps(s, ls);
    CountIs(d);
    forall t ensures !UpgradesBy(d, t, w) { SettledRefuses(d, t, w, Kin(s, ls, s.c.weaks.Keys)); }
  }

  lemma StartSettled(s: State)
    requires Inv(s) && Over(s.c.phase)
    ensures Settled(s, s.c.weaks.Keys)
  {
    hide CoreInv, Local;
    Newest(s.c);
  }

  lemma SettledRefuses(s: State, t: Tid, w: Hid, ws: set<Hid>)
    requires Inv(s) && Settled(s, ws) && w in ws
    ensures !UpgradesBy(s, t, w)
  {
    hide Inv;
    CountIs(s);
    if t in s.pc && s.pc[t].Up? && s.pc[t].w == w { UpHolds(s, t); }
  }

  lemma UpHolds(s: State, t: Tid)
    requires Inv(s) && t in s.pc && s.pc[t].Up?
    ensures s.pc[t].w in s.c.weaks && s.pc[t].n > 0
  {
    hide CoreInv, Frees, Datas, Bounds, News, Intos;
    assert PcOk(s, t);
  }

  // ---- otherwise an upgrade is still possible ----

  ghost predicate CanUpgrade(s: State, w: Hid) {
    exists ls, t :: Runs(s, ls) && UpgradesBy(After(s, ls), t, w)
  }

  /** No thread is inside an operation. */
  ghost predicate Resting(s: State) { Inv(s) && !s.aborted && forall t :: t in s.pc ==> s.pc[t].Idle? }

  lemma UserOf(s: State, v: Via) returns (t: Tid)
    requires Inv(s) && (if v.Root? then v.h in s.c.roots else v.h in s.c.weaks)
    ensures MayUse(s.c, v, t) && At(s, t) && Sane(s)
  {
    hide CoreInv, Pcs, Frees, Datas, Bounds, News, Intos;
    Newest(s.c);
    t :| t in if v.Root? then s.c.roots[v.h] else s.c.weaks[v.h];
  }

  /** `upgrade` that reads the newest write of `strong`. */
  lemma CountedUpgrades(i: State, ls: seq<Label>, s: State, w: Hid)
    requires RunsTo(i, ls, s) && Resting(s) && s.c.phase.Counted? && w in s.c.weaks
    requires |s.c.strong| > 0 && LastS(s.c).val <= MAX_REFCOUNT
    ensures CanUpgrade(i, w)
  {
    hide Inv, Enabled, Next, RunsTo;
    CountIs(s);
    var t := UserOf(s, Wk(w));
    var l := UpStart(t, w, |s.c.strong| - 1);
    UpReads(s, t, w);
    Extend(i, ls, s, l);
    RunsThere(i, ls + [l], Next(s, l), t, w);
  }

  lemma RunsThere(i: State, ls: seq<Label>, s: State, t: Tid, w: Hid)
    requires RunsTo(i, ls, s) && UpgradesBy(s, t, w)
    ensures CanUpgrade(i, w)
  {
    hide UpgradesBy, Runs, After;
  }

  lemma UpReads(s: State, t: Tid, w: Hid)
    requires Resting(s) && At(s, t) && MayUse(s.c, Wk(w), t) && |s.c.strong| > 0 && 0 < LastS(s.c).val <= MAX_REFCOUNT
    ensures Enabled(s, UpStart(t, w, |s.c.strong| - 1)) && UpgradesBy(Next(s, UpStart(t, w, |s.c.strong| - 1)), t, w)
  {
    hide Inv, Enabled, Next;
    UpStartReads(s, t, w);
    UpOkReady(Next(s, UpStart(t, w, |s.c.strong| - 1)), t);
  }

  lemma LoadKeepsWrites(c: Core, t: Tid, w: Hid)
    requires |c.strong| > 0 && t in c.cur && t in c.acq
    ensures var d := LoadS(c, t, Wk(w), |c.strong| - 1, false);
            d.strong == c.strong && d.weak == c.weak && d.cur.Keys == c.cur.Keys && d.acq.Keys == c.acq.Keys
  {
  }

  lemma UpStartReads(s: State, t: Tid, w: Hid)
    requires Resting(s) && At(s, t) && MayUse(s.c, Wk(w), t) && |s.c.strong| > 0 && 0 < LastS(s.c).val
    ensures Enabled(s, UpStart(t, w, |s.c.strong| - 1))
    ensures var d := Next(s, UpStart(t, w, |s.c.strong| - 1));
            Sane(d) && !d.aborted && At(d, t) && d.pc[t] == Up(w, LastS(d.c).val) && d.c.strong == s.c.strong
  {
    hide CoreInv, Pcs, Frees, Datas, Bounds, News, Intos, LoadS, EnabledShared, NextShared, EnabledOwner, NextOwner;
    Newest(s.c);
    LoadKeepsWrites(s.c, t, w);
  }

  lemma UpOkReady(s: State, t: Tid)
    requires Sane(s) && !s.aborted && At(s, t) && s.pc[t].Up? && s.pc[t].n == LastS(s.c).val <= MAX_REFCOUNT
    ensures Enabled(s, UpOk(t))
  {
  }


  /** The handle under construction comes back to a single thread. */
  lemma ComesBack(i: State, ls0: seq<Label>, s0: State, b: Hid) returns (ls: seq<Label>, s: State, t: Tid)
    requires RunsTo(i, ls0, s0) && Resting(s0) && b in s0.c.roots
    ensures RunsTo(i, ls, s) && Resting(s) && At(s, t) && Owns(s, t, b) && s.c.phase == s0.c.phase && s.c.weaks == s0.c.weaks
    decreases |s0.c.roots[b]|
  {
    hide Inv, Enabled, Next, RunsTo;
    t := UserOf(s0, Root(b));
    if s0.c.roots[b] == {t} {
      return ls0, s0, t;
    }
    var u := Another(s0, b, t);
    var l := GiveBackTo(t, u, Root(b));
    GivesBack(s0, t, u, b);
    StepKeeps(s0, l);
    Extend(i, ls0, s0, l);
    ls, s, t := ComesBack(i, ls0 + [l], Next(s0, l), b);
  }

  lemma Another(s: State, b: Hid, t: Tid) returns (u: Tid)
    requires Inv(s) && b in s.c.roots && t in s.c.roots[b] && s.c.roots[b] != {t}
    ensures u in s.c.roots[b] && u != t && At(s, u)
  {
    hide CoreInv, Pcs, Frees, Datas, Bounds, News, Intos;
    Newest(s.c);
    u :| u in s.c.roots[b] && u != t;
  }

  lemma GivesBack(s: State, t: Tid, u: Tid, b: Hid)
    requires Sane(s) && !s.aborted && IdleAt(s, t) && At(s, u) && t != u
    requires b in s.c.roots && t in s.c.roots[b] && u in s.c.roots[b]
    ensures var l := GiveBackTo(t, u, Root(b));
            && Enabled(s, l) && Next(s, l).c.phase == s.c.phase && Next(s, l).c.weaks == s.c.weaks && Next(s, l).pc == s.pc
            && !Next(s, l).aborted && b in Next(s, l).c.roots && |Next(s, l).c.roots[b]| < |s.c.roots[b]|
  {
    hide Join;
    assert |s.c.roots[b] - {t}| == |s.c.roots[b]| - 1;
  }

  lemma UniqueUpgrades(i: State, ls: seq<Label>, s: State, t: Tid, b: Hid, w: Hid)
    requires RunsTo(i, ls, s) && Resting(s) && s.c.phase.UniqueB? && At(s, t) && Owns(s, t, b) && w in s.c.weaks
    ensures CanUpgrade(i, w)
  {
    hide Inv, Enabled, Next, RunsTo;
    var l := IntoArc(t, b);
    BecomesArc(s, t, b);
    StepKeeps(s, l);
    Extend(i, ls, s, l);
    CountedUpgrades(i, ls + [l], Next(s, l), w);
  }

  lemma BecomesArc(s: State, t: Tid, b: Hid)
    requires Inv(s) && !s.aborted && IdleAt(s, t) && s.c.phase.UniqueB? && Owns(s, t, b)
    ensures Enabled(s, IntoArc(t, b))
    ensures var d := Next(s, IntoArc(t, b));
            d.pc == s.pc && !d.aborted && d.c.phase.Counted? && d.c.weaks == s.c.weaks && |d.c.strong| > 0 && LastS(d.c).val == 1
  {
    hide CoreInv, Pcs, Frees, Datas, Bounds, News, Intos, Join;
  }

  lemma CyclicUpgrades(i: State, ls: seq<Label>, s: State, t: Tid, b: Hid, w: Hid)
    requires RunsTo(i, ls, s) && Resting(s) && s.c.phase.CyclicB? && At(s, t) && Owns(s, t, b) && w in s.c.weaks
    ensures CanUpgrade(i, w)
  {
    hide Inv, Enabled, Next, RunsTo;
    var l, m := CycInit(t, b), CycPublish(t);
    CountIs(s);
    IsWritten(s, t, b);
    StepKeeps(s, l);
    var d := Next(s, l);
    CountIs(d);
    Extend(i, ls, s, l);
    IsPublished(d, t, b);
    StepKeeps(d, m);
    Extend(i, ls + [l], d, m);
    CountedUpgrades(i, ls + [l] + [m], Next(d, m), w);
  }

  lemma IsWritten(s: State, t: Tid, b: Hid)
    requires Inv(s) && !s.aborted && IdleAt(s, t) && s.c.phase.CyclicB? && Owns(s, t, b)
    ensures Enabled(s, CycInit(t, b))
    ensures var d := Next(s, CycInit(t, b));
            d.pc == s.pc[t := CycReady(b)] && !d.aborted && d.c.phase.CyclicB? && d.c.weaks == s.c.weaks && At(d, t)
  {
    hide CoreInv, Pcs, Frees, Datas, Bounds, News, Intos, Join;
  }

  lemma IsPublished(s: State, t: Tid, b: Hid)
    requires Inv(s) && !s.aborted && At(s, t) && s.c.phase.CyclicB? && s.pc[t] == CycReady(b)
    requires |s.c.strong| > 0 && LastS(s.c).val == 0
    ensures Enabled(s, CycPublish(t))
    ensures var d := Next(s, CycPublish(t));
            && d.pc == s.pc[t := Idle] && !d.aborted && d.c.phase.Counted? && d.c.weaks == s.c.weaks
            && |d.c.strong| > 0 && LastS(d.c).val == 1
  {
    hide CoreInv, Pcs, Frees, Datas, Bounds, News, Intos, Join;
  }

  lemma StillUpgrades(s: State, w: Hid)
    requires Resting(s) && w in s.c.weaks && !Over(s.c.phase) && |s.c.strong| > 0 && LastS(s.c).val <= MAX_REFCOUNT
    ensures CanUpgrade(s, w)
  {
    hide Inv, Enabled, Next, RunsTo, CanUpgrade;
    NoSteps(s);
    if s.c.phase.Counted? {
      CountedUpgrades(s, [], s, w);
    } else {
      var b := Builder(s);
      var ls, d, t := ComesBack(s, [], s, b);
      if s.c.phase.UniqueB? {
        UniqueUpgrades(s, ls, d, t, b, w);
      } else {
        CyclicUpgrades(s, ls, d, t, b, w);
      }
    }
  }

  lemma Builder(s: State) returns (b: Hid)
    requires Inv(s) && (s.c.phase.UniqueB? || s.c.phase.CyclicB?)
    ensures b in s.c.roots
  {
    hide CoreInv, Local;
    Newest(s.c);
    assert s.c.roots != map[];
    b :| b in s.c.roots;
  }

  /** Exactly when a `Weak` can still be upgraded, seen from a moment at which no thread is inside an
      operation: when there is an `Arc`, or a `UniqueArc` or a `new_cyclic` that may yet become one.
      If `strong` is 0 at that moment, it is final exactly when neither is the case. */
  lemma UpgradableIff(s: State, w: Hid)
    requires Reachable(s) && !s.aborted && (forall t :: t in s.pc ==> s.pc[t].Idle?)
    requires w in s.c.weaks && |s.c.strong| > 0 && LastS(s.c).val <= MAX_REFCOUNT
    ensures CanUpgrade(s, w) <==> s.c.phase.Counted? || s.c.phase.UniqueB? || s.c.phase.CyclicB?
  {
    hide Inv, Reachable, Enabled, Next, Kin, Runs, After, UpgradesBy;
    ReachableInv(s);
    if Over(s.c.phase) {
      forall ls, t | Runs(s, ls) ensures !UpgradesBy(After(s, ls), t, w) {
        StartSettled(s);
        SettledRun(s, ls, s.c.weaks.Keys);
        ZeroIsFinal(s, ls, w);
      }
    } else {
      StillUpgrades(s, w);
    }
  }
}
