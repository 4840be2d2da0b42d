/** A heap of `RcInner` allocations whose values own handles to one another, and its invariant. */
module RcState {

  import opened Common

  /** An owned pointer: an `Rc`, a `rc::Weak` or a `UniqueRc`. */
  datatype Handle = Strong(id: nat) | Weak(id: nat) | Unique(id: nat)

  /** Building: `new_cyclic` runs its closure. Lone: owned by a `UniqueRc`. Alive: owned by `Rc`s.
      Dropping: the destructor of the value runs. Dead: the value is gone, the memory is still
      there for `Weak`s. Freed: deallocated. */
  datatype Phase = Building | Lone | Alive | Dropping | Dead | Freed

  /** What the destructor of a value does before its fields are dropped: upgrade or clone a field
      and keep the result, or drop a handle kept elsewhere. */
  datatype Act = UpgradeField(i: nat) | CloneField(i: nat) | DropOther(i: nat)

  /** An allocation: the two counts, the handles its value owns (`value`; once the destructor has
      started `pending` are those not dropped yet), and what is left to run of the destructor. */
  datatype Cell = Cell(strong: nat, weak: nat, phase: Phase, value: seq<Handle>, pending: seq<Handle>, script: seq<Act>)

  // ---- all handles there are ----

  function All(cells: seq<Cell>): multiset<Handle> {
    if cells == [] then multiset{} else All(cells[..|cells| - 1]) + multiset(cells[|cells| - 1].pending)
  }

  lemma {:induction false} AllUpdate(cells: seq<Cell>, i: nat, c: Cell)
    requires i < |cells|
    ensures All(cells[i := c]) + multiset(cells[i].pending) == All(cells) + multiset(c.pending)
    ensures multiset(cells[i].pending) <= All(cells)
  {
    var n := |cells| - 1;
    if i < n {
      assert cells[i := c][..n] == cells[..n][i := c] && cells[i := c][n] == cells[n] && cells[..n][i] == cells[i];
      AllUpdate(cells[..n], i, c);
      var x, y, last := All(cells[..n][i := c]), All(cells[..n]), multiset(cells[n].pending);
      assert All(cells[i := c]) == x + last && All(cells) == y + last;
      assert (x + last) + multiset(cells[i].pending) == (x + multiset(cells[i].pending)) + last;
      assert (y + last) + multiset(c.pending) == (y + multiset(c.pending)) + last;
    } else {
      assert cells[i := c][..n] == cells[..n];
    }
  }

  /** How much a cascade of destructors can still do. */
  function Work(cells: seq<Cell>): nat {
    if cells == [] then 0
    else Work(cells[..|cells| - 1]) + |cells[|cells| - 1].pending| + |cells[|cells| - 1].script|
  }

  lemma {:induction false} WorkUpdate(cells: seq<Cell>, i: nat, c: Cell)
    requires i < |cells|
    ensures Work(cells[i := c]) + |cells[i].pending| + |cells[i].script| == Work(cells) + |c.pending| + |c.script|
  {
    var n := |cells| - 1;
    if i < n {
      assert cells[i := c][..n] == cells[..n][i := c];
      WorkUpdate(cells[..n], i, c);
    } else {
      assert cells[i := c][..n] == cells[..n];
    }
  }

  // ---- the counts ----

  /** The owners' shared weak reference, kept until the destructor is done. */
  function Implicit(p: Phase): nat { if p.Dead? || p.Freed? then 0 else 1 }

  predicate Gone(p: Phase) { p.Dropping? || p.Dead? || p.Freed? }

  predicate Owned(p: Phase) { p.Alive? || p.Lone? }

  predicate CellOk(c: Cell, hs: multiset<Handle>, id: nat) {
    && c.strong == hs[Strong(id)] <= USIZE_MAX
    && c.weak == hs[Weak(id)] + Implicit(c.phase) && c.weak <= USIZE_MAX
    && hs[Unique(id)] == (if c.phase.Lone? then 1 else 0)
    && (c.strong > 0 <==> c.phase.Alive?) && (c.weak > 0 <==> !c.phase.Freed?)
    && (Owned(c.phase) ==> c.pending == c.value)
    && (c.phase.Building? ==> c.value == [])
    && (c.phase.Building? || c.phase.Dead? || c.phase.Freed? ==> c.pending == [])
  }

  ghost predicate Counts(cells: seq<Cell>, hs: multiset<Handle>) {
    && (forall id :: 0 <= id < |cells| ==> CellOk(cells[id], hs, id))
    && (forall h :: h in hs ==> h.id < |cells|)
  }

  // ---- the order of destruction ----

  /** `p`'s value owns an owning handle to `c`. */
  predicate Edge(cells: seq<Cell>, p: nat, c: nat) {
    p < |cells| && (Strong(c) in cells[p].value || Unique(c) in cells[p].value)
  }

  /** `log` lists the values destroyed, in the order their destructors started: each after every
      value that owned it. */
  ghost predicate LogOk(cells: seq<Cell>, log: seq<nat>) {
    && (forall i :: 0 <= i < |log| ==> log[i] < |cells| && Gone(cells[log[i]].phase))
    && (forall i, j :: 0 <= i < j < |log| ==> log[i] != log[j])
    && (forall id :: 0 <= id < |cells| && Gone(cells[id].phase) && id !in log ==> cells[id].value == [])
    && (forall i, p: nat :: 0 <= i < |log| && Edge(cells, p, log[i]) ==> p in log[..i])
  }

  /** The invariant, when the program owns the handles `roots` and `flight` is being dropped. */
  ghost predicate Inv(cells: seq<Cell>, roots: seq<Handle>, log: seq<nat>, flight: multiset<Handle>) {
    Counts(cells, All(cells) + multiset(roots) + flight) && LogOk(cells, log)
  }

  /** From one state to another inside a cascade, cells in `own` aside: values stay what they are;
      a running destructor is left alone and its memory stays; destruction is final, and recorded. */
  predicate Evolves(a: Cell, b: Cell) {
    && b.value == a.value && (b.phase.Dropping? ==> a.phase.Dropping?)
    && match a.phase
       case Building => b.phase.Building?
       case Lone => !b.phase.Building? && !b.phase.Alive?
       case Alive => !b.phase.Building? && !b.phase.Lone?
       case Dropping => b.phase.Dropping? && b.pending == a.pending && b.script == a.script
       case Dead => b.phase.Dead? || b.phase.Freed?
       case Freed => b.phase.Freed?
  }

  ghost predicate Cascade(a: seq<Cell>, la: seq<nat>, b: seq<Cell>, lb: seq<nat>, own: set<nat>) {
    && |a| == |b| && la <= lb && Work(b) <= Work(a)
    && (forall id :: 0 <= id < |a| && id !in own ==> Evolves(a[id], b[id]))
    && (forall id :: 0 <= id < |a| ==> b[id].value == a[id].value)
    && (forall id :: 0 <= id < |a| && id !in own ==> (id in lb <==> id in la || (Owned(a[id].phase) && !Owned(b[id].phase))))
    && (forall id :: id in own ==> (id in lb <==> id in la))
  }

  lemma CascadeTrans(a: seq<Cell>, la: seq<nat>, b: seq<Cell>, lb: seq<nat>, c: seq<Cell>, lc: seq<nat>, own: set<nat>)
    requires Cascade(a, la, b, lb, own) && Cascade(b, lb, c, lc, own)
    ensures Cascade(a, la, c, lc, own)
  {
    forall id | 0 <= id < |a| && id !in own ensures Evolves(a[id], c[id]) {
      assert Evolves(a[id], b[id]) && Evolves(b[id], c[id]);
    }
    forall id | 0 <= id < |a| && id !in own
      ensures id in lc <==> id in la || (Owned(a[id].phase) && !Owned(c[id].phase))
    {
      assert Evolves(a[id], b[id]) && Evolves(b[id], c[id]);
    }
  }

  // ---- replacing one cell ----

  lemma CountsUpdate(cells: seq<Cell>, hs: multiset<Handle>, id: nat, c: Cell, hs': multiset<Handle>)
    requires Counts(cells, hs) && id < |cells| && CellOk(c, hs', id)
    requires forall h: Handle :: h.id != id ==> hs'[h] == hs[h]
    ensures Counts(cells[id := c], hs')
  {
    forall h | h in hs' ensures h.id < |cells| { assert h.id != id ==> h in hs; }
  }

  lemma LogUpdate(cells: seq<Cell>, log: seq<nat>, id: nat, c: Cell)
    requires LogOk(cells, log) && id < |cells| && c.value == cells[id].value
    requires Gone(c.phase) <==> Gone(cells[id].phase)
    ensures LogOk(cells[id := c], log)
  {
    forall p: nat, x: nat ensures Edge(cells[id := c], p, x) <==> Edge(cells, p, x) {}
  }

  /** A value nobody owns any more may be destroyed: its owners were destroyed before it. */
  lemma LogAppend(cells: seq<Cell>, hs: multiset<Handle>, log: seq<nat>, id: nat, c: Cell)
    requires LogOk(cells, log) && id < |cells| && c.value == cells[id].value && Owned(cells[id].phase) && Gone(c.phase)
    requires forall p: nat :: Edge(cells, p, id) ==> Gone(cells[p].phase)
    ensures LogOk(cells[id := c], log + [id])
  {
    var d, l := cells[id := c], log + [id];
    forall p: nat, x: nat ensures Edge(d, p, x) <==> Edge(cells, p, x) {}
    forall i, p: nat | 0 <= i < |l| && Edge(d, p, l[i]) ensures p in l[..i] {
      if i < |log| {
        assert l[..i] == log[..i];
      } else {
        assert l[..i] == log && (Strong(id) in cells[p].value || Unique(id) in cells[p].value);
      }
    }
  }
}
