/** Who is alive: what the counts, and the order of destruction, say about reachability. */
module RcReach {
  import opened Common
  import opened RcState

  ghost predicate Path(cells: seq<Cell>, p: seq<nat>) {
    |p| > 0 && forall i :: 0 <= i < |p| - 1 ==> Edge(cells, p[i], p[i + 1])
  }

  /** The program holds an owning handle to `id`. */
  predicate Rooted(roots: seq<Handle>, id: nat) { Strong(id) in roots || Unique(id) in roots }

  ghost predicate PathTo(cells: seq<Cell>, roots: seq<Handle>, p: seq<nat>, id: nat) {
    Path(cells, p) && Rooted(roots, p[0]) && p[|p| - 1] == id
  }

  ghost predicate Reachable(cells: seq<Cell>, roots: seq<Handle>, id: nat) { exists p :: PathTo(cells, roots, p, id) }

  ghost predicate Cycle(cells: seq<Cell>, p: seq<nat>) { Path(cells, p) && |p| > 1 && p[0] == p[|p| - 1] }

  ghost predicate OnCycle(cells: seq<Cell>, id: nat) { exists p :: Cycle(cells, p) && p[0] == id }

  /** No cycle of owning handles among the values that still exist. */
  ghost predicate Acyclic(cells: seq<Cell>) {
    forall p :: Cycle(cells, p) ==> exists i :: 0 <= i < |p| && p[i] < |cells| && !Owned(cells[p[i]].phase)
  }

  ghost predicate Quiet(cells: seq<Cell>) { forall id :: 0 <= id < |cells| ==> !cells[id].phase.Dropping? }

  // ---- reachable values exist ----

  lemma RootOwned(cells: seq<Cell>, roots: seq<Handle>, log: seq<nat>, id: nat)
    requires Inv(cells, roots, log, multiset{}) && Rooted(roots, id)
    ensures id < |cells| && Owned(cells[id].phase)
  {
    hide LogOk, All;
    var hs := All(cells) + multiset(roots) + multiset{};
    assert Strong(id) in roots ==> Strong(id) in hs;
    assert Unique(id) in roots ==> Unique(id) in hs;
    assert id < |cells| && CellOk(cells[id], hs, id);
  }

  lemma EdgeOwned(cells: seq<Cell>, roots: seq<Handle>, log: seq<nat>, p: nat, id: nat)
    requires Inv(cells, roots, log, multiset{}) && Edge(cells, p, id) && Owned(cells[p].phase)
    ensures id < |cells| && Owned(cells[id].phase)
  {
    hide LogOk, All;
    var hs := All(cells) + multiset(roots) + multiset{};
    AllUpdate(cells, p, cells[p]);
    var m := multiset(cells[p].pending);
    assert CellOk(cells[p], hs, p);
    assert Strong(id) in m || Unique(id) in m;
    assert Strong(id) in m ==> Strong(id) in hs;
    assert Unique(id) in m ==> Unique(id) in hs;
    assert id < |cells| && CellOk(cells[id], hs, id);
  }

  /** A value that can be reached from a handle of the program has not been destroyed. */
  lemma {:induction false} ReachableIsOwned(cells: seq<Cell>, roots: seq<Handle>, log: seq<nat>, p: seq<nat>, id: nat)
    requires Inv(cells, roots, log, multiset{}) && PathTo(cells, roots, p, id)
    ensures id < |cells| && Owned(cells[id].phase)
    decreases |p|
  {
    hide Inv;
    if |p| == 1 {
      RootOwned(cells, roots, log, id);
    } else {
      var q := p[..|p| - 1];
      assert PathTo(cells, roots, q, p[|p| - 2]);
      ReachableIsOwned(cells, roots, log, q, p[|p| - 2]);
      EdgeOwned(cells, roots, log, p[|p| - 2], id);
    }
  }

  // ---- existing values are reachable, unless they are on a cycle ----

  /** A value that exists is owned by the program or by another value that exists. */
  lemma HasOwner(cells: seq<Cell>, roots: seq<Handle>, log: seq<nat>, id: nat)
    requires Inv(cells, roots, log, multiset{}) && Quiet(cells) && id < |cells| && Owned(cells[id].phase)
    ensures Rooted(roots, id) || exists p: nat :: Edge(cells, p, id) && Owned(cells[p].phase)
  {
    hide LogOk;
    var hs := All(cells) + multiset(roots) + multiset{};
    assert CellOk(cells[id], hs, id);
    var h := if cells[id].phase.Alive? then Strong(id) else Unique(id);
    assert h in hs;
    if h !in roots {
      assert h in All(cells);
      var p := HolderOf(cells, h);
      assert CellOk(cells[p], hs, p);
      assert Edge(cells, p, id);
    }
  }

  lemma {:induction false} HolderOf(cells: seq<Cell>, h: Handle) returns (p: nat)
    requires h in All(cells)
    ensures p < |cells| && h in cells[p].pending
  {
    var n := |cells| - 1;
    if h in cells[n].pending {
      p := n;
    } else {
      p := HolderOf(cells[..n], h);
    }
  }

  function Range(n: nat): (s: set<nat>)
    ensures |s| == n && forall x: nat :: x in s <==> x < n
  {
    if n == 0 then {} else Range(n - 1) + {n - 1}
  }

  function Elements(p: seq<nat>): (s: set<nat>)
    ensures forall x :: x in s <==> x in p
  {
    if p == [] then {} else Elements(p[..|p| - 1]) + {p[|p| - 1]}
  }

  lemma {:induction false} DistinctFit(p: seq<nat>, n: nat)
    requires (forall i :: 0 <= i < |p| ==> p[i] < n) && (forall i, j :: 0 <= i < j < |p| ==> p[i] != p[j])
    ensures |p| <= n
  {
    DistinctCard(p);
    CardMono(Elements(p), Range(n));
  }

  lemma {:induction false} DistinctCard(p: seq<nat>)
    requires forall i, j :: 0 <= i < j < |p| ==> p[i] != p[j]
    ensures |Elements(p)| == |p|
  {
    if p != [] {
      var q := p[..|p| - 1];
      DistinctCard(q);
      assert p[|p| - 1] !in q;
    }
  }

  /** A path of distinct existing values, with no owner outside a cycle, grows backwards to a root. */
  lemma {:induction false} GrowBack(cells: seq<Cell>, roots: seq<Handle>, log: seq<nat>, p: seq<nat>)
    requires Inv(cells, roots, log, multiset{}) && Quiet(cells) && Acyclic(cells) && Path(cells, p)
    requires (forall i :: 0 <= i < |p| ==> p[i] < |cells| && Owned(cells[p[i]].phase))
    requires (forall i, j :: 0 <= i < j < |p| ==> p[i] != p[j])
    ensures Reachable(cells, roots, p[|p| - 1])
    decreases |cells| - |p|
  {
    hide Inv, Quiet;
    HasOwner(cells, roots, log, p[0]);
    if Rooted(roots, p[0]) {
      assert PathTo(cells, roots, p, p[|p| - 1]);
    } else {
      var q: nat :| Edge(cells, q, p[0]) && Owned(cells[q].phase);
      var r := [q] + p;
      assert Path(cells, r);
      forall i | 0 <= i < |p| ensures p[i] != q { NoCycleBack(cells, p, q, i); }
      DistinctFit(r, |cells|);
      GrowBack(cells, roots, log, r);
    }
  }

  lemma NoCycleBack(cells: seq<Cell>, p: seq<nat>, q: nat, i: nat)
    requires Acyclic(cells) && Path(cells, p) && i < |p| && Edge(cells, q, p[0]) && Owned(cells[q].phase)
    requires forall j :: 0 <= j < |p| ==> p[j] < |cells| && Owned(cells[p[j]].phase)
    ensures p[i] != q
  {
    var c := [q] + p[..i + 1];
    assert Path(cells, c);
    assert c[|c| - 1] == p[i] && |c| > 1;
    assert forall j :: 0 <= j < |c| ==> c[j] < |cells| && Owned(cells[c[j]].phase);
    assert !Cycle(cells, c);
  }

  /** When no owning handles form a cycle, the values that exist are exactly the reachable ones. */
  lemma OwnedIffReachable(cells: seq<Cell>, roots: seq<Handle>, log: seq<nat>, id: nat)
    requires Inv(cells, roots, log, multiset{}) && Quiet(cells) && Acyclic(cells) && id < |cells|
    ensures Owned(cells[id].phase) <==> Reachable(cells, roots, id)
  {
    hide Inv, Quiet, Acyclic;
    if Owned(cells[id].phase) {
      assert Path(cells, [id]);
      GrowBack(cells, roots, log, [id]);
    }
    if Reachable(cells, roots, id) {
      var p :| PathTo(cells, roots, p, id);
      ReachableIsOwned(cells, roots, log, p, id);
    }
  }

  // ---- nothing on a cycle is ever destroyed ----

  /** Whatever leads to a destroyed value by owning handles was destroyed before it. */
  lemma {:induction false} DestroyedAfterOwners(cells: seq<Cell>, log: seq<nat>, p: seq<nat>, k: nat)
    requires LogOk(cells, log) && Path(cells, p) && k < |log| && log[k] == p[|p| - 1]
    ensures p[0] in log[..k + 1] && (|p| > 1 ==> p[0] in log[..k])
    decreases |p|
  {
    if |p| > 1 {
      var q := p[..|p| - 1];
      assert Edge(cells, p[|p| - 2], log[k]);
      var j :| 0 <= j < k && log[j] == q[|q| - 1];
      DestroyedAfterOwners(cells, log, q, j);
    }
  }

  lemma CyclesSurvive(cells: seq<Cell>, log: seq<nat>, id: nat)
    requires LogOk(cells, log) && OnCycle(cells, id)
    ensures id !in log
  {
    var p :| Cycle(cells, p) && p[0] == id;
    forall k | 0 <= k < |log| ensures log[k] != id { CycleNotAt(cells, log, p, k); }
  }

  lemma CycleNotAt(cells: seq<Cell>, log: seq<nat>, p: seq<nat>, k: nat)
    requires LogOk(cells, log) && Cycle(cells, p) && k < |log|
    ensures log[k] != p[0]
  {
    if log[k] == p[0] {
      DestroyedAfterOwners(cells, log, p, k);
      assert false;
    }
  }

  // ---- what a cascade as a whole destroys ----

  lemma SameGraph(a: seq<Cell>, b: seq<Cell>)
    requires |a| == |b| && forall id :: 0 <= id < |a| ==> a[id].value == b[id].value
    ensures forall p :: Path(a, p) <==> Path(b, p)
    ensures forall roots, id :: Reachable(a, roots, id) <==> Reachable(b, roots, id)
  {
    forall p: nat, c: nat ensures Edge(a, p, c) <==> Edge(b, p, c) {}
    forall p ensures Path(a, p) <==> Path(b, p) {}
    forall roots, id ensures Reachable(a, roots, id) <==> Reachable(b, roots, id) {
      if p :| PathTo(a, roots, p, id) { assert PathTo(b, roots, p, id); }
      if p :| PathTo(b, roots, p, id) { assert PathTo(a, roots, p, id); }
    }
  }

  /** A finished cascade, in a graph without cycles, has destroyed exactly what the handles left to
      the program do not reach; in any graph it spares what they reach and what lies on a cycle. */
  lemma CascadeIsExact(a: seq<Cell>, la: seq<nat>, b: seq<Cell>, lb: seq<nat>, roots: seq<Handle>, id: nat)
    requires Cascade(a, la, b, lb, {}) && Inv(b, roots, lb, multiset{}) && Quiet(a)
    requires id < |a| && Owned(a[id].phase) && id !in la
    ensures Reachable(a, roots, id) ==> Owned(b[id].phase)
    ensures OnCycle(a, id) ==> Owned(b[id].phase)
    ensures Acyclic(a) ==> (Owned(b[id].phase) <==> Reachable(a, roots, id))
  {
    hide Inv, Reachable, Acyclic, Cascade;
    CascadeGraph(a, la, b, lb);
    SameGraph(a, b);
    if Reachable(a, roots, id) { Spared(b, lb, roots, id); }
    if OnCycle(a, id) { SparedOnCycle(a, la, b, lb, roots, id); }
    if Acyclic(a) {
      StillAcyclic(a, b);
      OwnedIffReachable(b, roots, lb, id);
    }
  }

  lemma CascadeGraph(a: seq<Cell>, la: seq<nat>, b: seq<Cell>, lb: seq<nat>)
    requires Cascade(a, la, b, lb, {}) && Quiet(a)
    ensures |a| == |b| && Quiet(b) && forall id :: 0 <= id < |a| ==> a[id].value == b[id].value
    ensures forall id :: 0 <= id < |a| && Owned(b[id].phase) ==> Owned(a[id].phase)
    ensures forall id :: 0 <= id < |a| && Owned(a[id].phase) && id !in la ==> (id in lb <==> !Owned(b[id].phase))
  {
    forall id | 0 <= id < |a| ensures Evolves(a[id], b[id]) {}
  }

  lemma Spared(b: seq<Cell>, lb: seq<nat>, roots: seq<Handle>, id: nat)
    requires Inv(b, roots, lb, multiset{}) && Reachable(b, roots, id)
    ensures id < |b| && Owned(b[id].phase)
  {
    hide Inv;
    var p :| PathTo(b, roots, p, id);
    ReachableIsOwned(b, roots, lb, p, id);
  }

  lemma SparedOnCycle(a: seq<Cell>, la: seq<nat>, b: seq<Cell>, lb: seq<nat>, roots: seq<Handle>, id: nat)
    requires Cascade(a, la, b, lb, {}) && Quiet(a) && Inv(b, roots, lb, multiset{}) && OnCycle(a, id)
    requires id < |a| && Owned(a[id].phase) && id !in la
    ensures Owned(b[id].phase)
  {
    hide Counts, Cascade, LogOk;
    CascadeGraph(a, la, b, lb);
    SameGraph(a, b);
    var p :| Cycle(a, p) && p[0] == id;
    assert Cycle(b, p);
    CyclesSurvive(b, lb, id);
  }

  lemma StillAcyclic(a: seq<Cell>, b: seq<Cell>)
    requires |a| == |b| && (forall p :: Path(a, p) <==> Path(b, p)) && Acyclic(a)
    requires forall id :: 0 <= id < |a| && Owned(b[id].phase) ==> Owned(a[id].phase)
    ensures Acyclic(b)
  {
    forall p | Cycle(b, p) ensures exists i :: 0 <= i < |p| && p[i] < |b| && !Owned(b[p[i]].phase) {
      assert Cycle(a, p);
      var i :| 0 <= i < |p| && p[i] < |a| && !Owned(a[p[i]].phase);
      assert !Owned(b[p[i]].phase);
    }
  }

  /** Once the program holds no handle, and no cycle was left behind, all memory has been freed. */
  lemma NothingLeaks(cells: seq<Cell>, log: seq<nat>)
    requires Inv(cells, [], log, multiset{}) && Quiet(cells) && Acyclic(cells)
    requires forall id :: 0 <= id < |cells| ==> !cells[id].phase.Building?
    ensures forall id :: 0 <= id < |cells| ==> cells[id].phase.Freed?
  {
    hide LogOk, Acyclic, All;
    var hs := All(cells) + multiset([]) + multiset{};
    forall id | 0 <= id < |cells| ensures cells[id].pending == [] {
      OwnedIffReachable(cells, [], log, id);
      assert CellOk(cells[id], hs, id);
    }
    NoHandles(cells);
    forall id | 0 <= id < |cells| ensures cells[id].phase.Freed? {
      OwnedIffReachable(cells, [], log, id);
      assert CellOk(cells[id], hs, id);
    }
  }

  lemma {:induction false} NoHandles(cells: seq<Cell>)
    requires forall id :: 0 <= id < |cells| ==> cells[id].pending == []
    ensures All(cells) == multiset{}
  {
    if cells != [] { NoHandles(cells[..|cells| - 1]); }
  }
}
