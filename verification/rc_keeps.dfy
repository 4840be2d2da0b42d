/** Every single change to the counts keeps the invariant of the heap. */
module RcKeeps {
  import opened Common
  import opened RcState

  lemma AllSame(cells: seq<Cell>, id: nat, c: Cell)
    requires id < |cells| && c.pending == cells[id].pending
    ensures All(cells[id := c]) == All(cells)
  {
    AllUpdate(cells, id, c);
    var x, y, m := All(cells[id := c]), All(cells), multiset(c.pending);
    assert x == (x + m) - m && y == (y + m) - m;
  }

  /** A cell whose handles stay put, with the counts the new handles ask for. */
  lemma Recount(cells: seq<Cell>, roots: seq<Handle>, log: seq<nat>, flight: multiset<Handle>,
                id: nat, c: Cell, roots': seq<Handle>, flight': multiset<Handle>)
    requires Inv(cells, roots, log, flight) && id < |cells|
    requires c.value == cells[id].value && c.pending == cells[id].pending && (Gone(c.phase) <==> Gone(cells[id].phase))
    requires forall h: Handle :: h.id != id ==> (multiset(roots') + flight')[h] == (multiset(roots) + flight)[h]
    requires CellOk(c, All(cells) + multiset(roots') + flight', id)
    ensures Inv(cells[id := c], roots', log, flight')
  {
    hide LogOk, Counts, CellOk;
    AllSame(cells, id, c);
    CountsUpdate(cells, All(cells) + multiset(roots) + flight, id, c, All(cells) + multiset(roots') + flight');
    LogUpdate(cells, log, id, c);
  }

  /** The cell a handle points to exists, with counts that include it. */
  lemma Pointee(cells: seq<Cell>, roots: seq<Handle>, log: seq<nat>, flight: multiset<Handle>, h: Handle)
    requires Inv(cells, roots, log, flight) && (h in flight || h in roots)
    ensures h.id < |cells| && CellOk(cells[h.id], All(cells) + multiset(roots) + flight, h.id)
    ensures h.Strong? ==> cells[h.id].phase.Alive? && cells[h.id].strong > 0
    ensures h.Weak? ==> cells[h.id].weak > Implicit(cells[h.id].phase)
    ensures h.Unique? ==> cells[h.id].phase.Lone? && cells[h.id].strong == 0
  {
    assert h in multiset(roots) + flight;
    assert h in All(cells) + multiset(roots) + flight;
  }

  // ---- giving handles up ----

  lemma DecStrongKeeps(cells: seq<Cell>, roots: seq<Handle>, log: seq<nat>, id: nat)
    requires Inv(cells, roots, log, multiset{Strong(id)}) && id < |cells| && cells[id].strong > 1
    ensures Inv(cells[id := cells[id].(strong := cells[id].strong - 1)], roots, log, multiset{})
  {
    hide LogOk, All;
    Recount(cells, roots, log, multiset{Strong(id)}, id, cells[id].(strong := cells[id].strong - 1), roots, multiset{});
  }

  /** `Weak::drop`: the memory goes when the last weak reference, counting the owners' one, goes. */
  function WeakGone(c: Cell): Cell
    requires c.weak > 0
  {
    c.(weak := c.weak - 1, phase := if c.weak == 1 then Freed else c.phase)
  }

  lemma DecWeakKeeps(cells: seq<Cell>, roots: seq<Handle>, log: seq<nat>, id: nat)
    requires Inv(cells, roots, log, multiset{Weak(id)}) && id < |cells| && cells[id].weak > 0
    ensures cells[id].weak == 1 ==> cells[id].phase.Dead?
    ensures Inv(cells[id := WeakGone(cells[id])], roots, log, multiset{})
  {
    hide LogOk, All;
    Pointee(cells, roots, log, multiset{Weak(id)}, Weak(id));
    Recount(cells, roots, log, multiset{Weak(id)}, id, WeakGone(cells[id]), roots, multiset{});
  }

  /** The last owning handle goes: the destructor starts. */
  lemma StartKeeps(cells: seq<Cell>, roots: seq<Handle>, log: seq<nat>, h: Handle)
    requires Inv(cells, roots, log, multiset{h}) && h.id < |cells|
    requires (h.Strong? && cells[h.id].strong == 1) || h.Unique?
    ensures Owned(cells[h.id].phase)
    ensures Inv(cells[h.id := cells[h.id].(strong := 0, phase := Dropping)], roots, log + [h.id], multiset{})
  {
    hide LogOk, All, Counts;
    var c := cells[h.id].(strong := 0, phase := Dropping);
    var hs := All(cells) + multiset(roots) + multiset{h};
    var hs' := All(cells) + multiset(roots) + multiset{};
    Pointee(cells, roots, log, multiset{h}, h);
    AllSame(cells, h.id, c);
    CountsUpdate(cells, hs, h.id, c, hs');
    assert hs'[Strong(h.id)] == 0 && hs'[Unique(h.id)] == 0;
    StartOwners(cells, hs, hs', h);
    LogAppend(cells, hs, log, h.id, c);
  }

  lemma StartOwners(cells: seq<Cell>, hs: multiset<Handle>, hs': multiset<Handle>, h: Handle)
    requires Counts(cells, hs) && All(cells) <= hs' && hs == hs' + multiset{h} && h.id < |cells|
    requires hs'[Strong(h.id)] == 0 && hs'[Unique(h.id)] == 0
    ensures forall p: nat :: Edge(cells, p, h.id) ==> Gone(cells[p].phase)
  {
    hide All;
    forall p: nat | Edge(cells, p, h.id) ensures Gone(cells[p].phase) {
      AllUpdate(cells, p, cells[p]);
      var m := multiset(cells[p].pending);
      assert CellOk(cells[p], hs, p);
      assert m[Strong(h.id)] <= hs'[Strong(h.id)] && m[Unique(h.id)] <= hs'[Unique(h.id)];
      assert Strong(h.id) !in cells[p].pending && Unique(h.id) !in cells[p].pending;
    }
  }

  /** The destructor takes the next field, to drop it. */
  lemma TakeKeeps(cells: seq<Cell>, roots: seq<Handle>, log: seq<nat>, id: nat)
    requires Inv(cells, roots, log, multiset{}) && id < |cells| && cells[id].phase.Dropping? && cells[id].pending != []
    ensures var c := cells[id].(pending := cells[id].pending[1..]);
            Inv(cells[id := c], roots, log, multiset{cells[id].pending[0]}) && Work(cells[id := c]) == Work(cells) - 1
  {
    hide LogOk, All;
    var f, rest := cells[id].pending[0], cells[id].pending[1..];
    var c := cells[id].(pending := rest);
    assert cells[id].pending == [f] + rest;
    AllUpdate(cells, id, c);
    WorkUpdate(cells, id, c);
    var m := multiset(rest);
    assert All(cells[id := c]) + (multiset{f} + m) == All(cells) + m;
    assert All(cells[id := c]) + multiset{f} == All(cells) by {
      assert (All(cells[id := c]) + multiset{f}) + m == All(cells) + m;
      assert ((All(cells[id := c]) + multiset{f}) + m) - m == All(cells[id := c]) + multiset{f} && (All(cells) + m) - m == All(cells);
    }
    var hs := All(cells) + multiset(roots) + multiset{};
    assert All(cells[id := c]) + multiset(roots) + multiset{f} == hs;
    CountsUpdate(cells, hs, id, c, hs);
    LogUpdate(cells, log, id, c);
  }

  /** The destructor is done: the owners' weak reference goes. */
  function ValueGone(c: Cell): Cell
    requires c.weak > 0
  {
    c.(weak := c.weak - 1, phase := if c.weak == 1 then Freed else Dead, pending := [], script := [])
  }

  lemma FinishKeeps(cells: seq<Cell>, roots: seq<Handle>, log: seq<nat>, id: nat)
    requires Inv(cells, roots, log, multiset{}) && id < |cells|
    requires cells[id].phase.Dropping? && cells[id].pending == [] && cells[id].script == []
    ensures cells[id].weak > 0 && Inv(cells[id := ValueGone(cells[id])], roots, log, multiset{})
  {
    hide LogOk, All;
    assert CellOk(cells[id], All(cells) + multiset(roots) + multiset{}, id);
    Recount(cells, roots, log, multiset{}, id, ValueGone(cells[id]), roots, multiset{});
  }

  lemma ScriptKeeps(cells: seq<Cell>, roots: seq<Handle>, log: seq<nat>, id: nat)
    requires Inv(cells, roots, log, multiset{}) && id < |cells| && cells[id].script != []
    ensures var c := cells[id].(script := cells[id].script[1..]);
            Inv(cells[id := c], roots, log, multiset{}) && Work(cells[id := c]) == Work(cells) - 1
  {
    hide LogOk, All;
    var c := cells[id].(script := cells[id].script[1..]);
    WorkUpdate(cells, id, c);
    assert CellOk(cells[id], All(cells) + multiset(roots) + multiset{}, id);
    Recount(cells, roots, log, multiset{}, id, c, roots, multiset{});
  }

  // ---- making handles ----

  lemma IncStrongKeeps(cells: seq<Cell>, roots: seq<Handle>, log: seq<nat>, id: nat)
    requires Inv(cells, roots, log, multiset{}) && id < |cells| && 0 < cells[id].strong < USIZE_MAX
    ensures Inv(cells[id := cells[id].(strong := cells[id].strong + 1)], roots + [Strong(id)], log, multiset{})
  {
    hide LogOk, All;
    assert CellOk(cells[id], All(cells) + multiset(roots) + multiset{}, id);
    Recount(cells, roots, log, multiset{}, id, cells[id].(strong := cells[id].strong + 1), roots + [Strong(id)], multiset{});
  }

  lemma IncWeakKeeps(cells: seq<Cell>, roots: seq<Handle>, log: seq<nat>, id: nat)
    requires Inv(cells, roots, log, multiset{}) && id < |cells| && 0 < cells[id].weak < USIZE_MAX
    ensures Inv(cells[id := cells[id].(weak := cells[id].weak + 1)], roots + [Weak(id)], log, multiset{})
  {
    hide LogOk, All;
    assert CellOk(cells[id], All(cells) + multiset(roots) + multiset{}, id);
    Recount(cells, roots, log, multiset{}, id, cells[id].(weak := cells[id].weak + 1), roots + [Weak(id)], multiset{});
  }

  /** A handle the program owns becomes the one being dropped. */
  lemma RootKeeps(cells: seq<Cell>, roots: seq<Handle>, log: seq<nat>, j: nat)
    requires Inv(cells, roots, log, multiset{}) && j < |roots|
    ensures Inv(cells, roots[..j] + roots[j + 1..], log, multiset{roots[j]})
  {
    hide LogOk, All, Counts;
    assert roots == roots[..j] + [roots[j]] + roots[j + 1..];
    assert All(cells) + multiset(roots) + multiset{} == All(cells) + multiset(roots[..j] + roots[j + 1..]) + multiset{roots[j]};
  }

  // ---- making and unmaking values ----

  /** The program's last `k` handles, moved into a value. */
  function Last(roots: seq<Handle>, k: nat): seq<Handle>
    requires k <= |roots|
  {
    roots[|roots| - k..]
  }

  function Rest(roots: seq<Handle>, k: nat): seq<Handle>
    requires k <= |roots|
  {
    roots[..|roots| - k]
  }

  /** Handles of the program never point to a destroyed value. */
  lemma RootsNotLogged(cells: seq<Cell>, roots: seq<Handle>, log: seq<nat>, k: nat)
    requires Inv(cells, roots, log, multiset{}) && k <= |roots|
    ensures forall x: nat :: Strong(x) in Last(roots, k) || Unique(x) in Last(roots, k) ==> x < |cells| && x !in log
  {
    hide All, Counts;
    forall x: nat | Strong(x) in Last(roots, k) || Unique(x) in Last(roots, k) ensures x < |cells| && x !in log {
      var h := if Strong(x) in Last(roots, k) then Strong(x) else Unique(x);
      assert h in Last(roots, k) && h in roots;
      Pointee(cells, roots, log, multiset{}, h);
      assert !Gone(cells[x].phase);
    }
  }

  lemma LogValue(cells: seq<Cell>, log: seq<nat>, id: nat, c: Cell)
    requires LogOk(cells, log) && id < |cells| && !Gone(cells[id].phase)
    requires Gone(c.phase) ==> c.value == []
    requires forall x: nat :: Strong(x) in c.value || Unique(x) in c.value ==> x !in log
    ensures LogOk(cells[id := c], log)
  {
    var d := cells[id := c];
    assert id !in log;
    forall i, p: nat | 0 <= i < |log| && Edge(d, p, log[i]) ensures p in log[..i] {
      assert log[i] in log;
      assert p != id;
      assert Edge(cells, p, log[i]);
    }
  }

  lemma LogNew(cells: seq<Cell>, log: seq<nat>, c: Cell)
    requires LogOk(cells, log) && !Gone(c.phase)
    requires forall x: nat :: Strong(x) in c.value || Unique(x) in c.value ==> x !in log
    ensures LogOk(cells + [c], log)
  {
    var d := cells + [c];
    forall i, p: nat | 0 <= i < |log| && Edge(d, p, log[i]) ensures p in log[..i] {
      assert log[i] in log;
      assert p < |cells| && Edge(cells, p, log[i]);
    }
  }

  /** A new allocation, owned by the handle `h` (nobody's, while `new_cyclic` builds it). */
  lemma NewKeeps(cells: seq<Cell>, roots: seq<Handle>, log: seq<nat>, k: nat, c: Cell, h: seq<Handle>)
    requires Inv(cells, roots, log, multiset{}) && k <= |roots|
    requires c.value == c.pending == Last(roots, k) && c.weak == 1
    requires (c.phase.Alive? && c.strong == 1 && h == [Strong(|cells|)]) || (c.phase.Lone? && c.strong == 0 && h == [Unique(|cells|)])
          || (c.phase.Building? && c.strong == 0 && h == [] && k == 0)
    ensures Inv(cells + [c], Rest(roots, k) + h, log, multiset{})
  {
    hide LogOk, All;
    var n := |cells|;
    var hs := All(cells) + multiset(roots) + multiset{};
    var hs' := All(cells + [c]) + multiset(Rest(roots, k) + h) + multiset{};
    AllAppend(cells, c);
    assert roots == Rest(roots, k) + Last(roots, k);
    assert hs' == hs + multiset(h);
    NoHandleYet(cells, hs);
    CountsNew(cells, hs, c, hs');
    RootsNotLogged(cells, roots, log, k);
    LogNew(cells, log, c);
  }

  lemma AllAppend(cells: seq<Cell>, c: Cell)
    ensures All(cells + [c]) == All(cells) + multiset(c.pending)
  {
    assert (cells + [c])[..|cells|] == cells;
  }

  lemma NoHandleYet(cells: seq<Cell>, hs: multiset<Handle>)
    requires Counts(cells, hs)
    ensures hs[Strong(|cells|)] == 0 && hs[Weak(|cells|)] == 0 && hs[Unique(|cells|)] == 0
  {
    assert Strong(|cells|) !in hs && Weak(|cells|) !in hs && Unique(|cells|) !in hs;
  }

  lemma CountsNew(cells: seq<Cell>, hs: multiset<Handle>, c: Cell, hs': multiset<Handle>)
    requires Counts(cells, hs) && CellOk(c, hs', |cells|)
    requires forall h: Handle :: h.id != |cells| ==> hs'[h] == hs[h]
    ensures Counts(cells + [c], hs')
  {
    forall h | h in hs' ensures h.id < |cells + [c]| { assert h.id != |cells| ==> h in hs; }
  }

  /** A value is put into, or moved out of, an allocation; the handles move the other way. */
  lemma MoveKeeps(cells: seq<Cell>, roots: seq<Handle>, log: seq<nat>, id: nat, c: Cell, roots': seq<Handle>)
    requires Inv(cells, roots, log, multiset{}) && id < |cells| && !Gone(cells[id].phase)
    requires Gone(c.phase) ==> c.value == []
    requires forall x: nat :: Strong(x) in c.value || Unique(x) in c.value ==> x !in log
    requires multiset(c.pending) + multiset(roots') + Lost(cells[id], c, id) == multiset(cells[id].pending) + multiset(roots) + Made(cells[id], c, id)
    requires CellOk(c, All(cells) + multiset(roots) + multiset{} + Made(cells[id], c, id) - Lost(cells[id], c, id), id)
    ensures Inv(cells[id := c], roots', log, multiset{})
  {
    hide LogOk, All, CellOk, Counts;
    var hs := All(cells) + multiset(roots) + multiset{};
    var hs' := All(cells[id := c]) + multiset(roots') + multiset{};
    MoveCounts(cells, roots, id, c, roots');
    var lost, made := Lost(cells[id], c, id), Made(cells[id], c, id);
    assert hs' == (hs' + lost) - lost == hs + made - lost;
    CountsUpdate(cells, hs, id, c, hs');
    LogValue(cells, log, id, c);
  }

  /** The owning handles to `id` that a move uses up, and those it makes. */
  function Lost(a: Cell, c: Cell, id: nat): multiset<Handle> {
    (if a.strong > c.strong then multiset{Strong(id)} else multiset{}) + if a.phase.Lone? && !c.phase.Lone? then multiset{Unique(id)} else multiset{}
  }

  function Made(a: Cell, c: Cell, id: nat): multiset<Handle> {
    if a.strong < c.strong then multiset{Strong(id)} else multiset{}
  }

  lemma MoveCounts(cells: seq<Cell>, roots: seq<Handle>, id: nat, c: Cell, roots': seq<Handle>)
    requires id < |cells|
    requires multiset(c.pending) + multiset(roots') + Lost(cells[id], c, id) == multiset(cells[id].pending) + multiset(roots) + Made(cells[id], c, id)
    ensures All(cells[id := c]) + multiset(roots') + multiset{} + Lost(cells[id], c, id)
         == All(cells) + multiset(roots) + multiset{} + Made(cells[id], c, id)
  {
    hide All;
    AllUpdate(cells, id, c);
    var x, y, p, q := All(cells[id := c]), All(cells), multiset(cells[id].pending), multiset(c.pending);
    var l, m := Lost(cells[id], c, id), Made(cells[id], c, id);
    var r, r' := multiset(roots), multiset(roots');
    assert (x + p) + (q + r' + l) == (y + q) + (p + r + m);
    assert ((x + r' + multiset{} + l) + (p + q)) == ((y + r + multiset{} + m) + (p + q)) by {
      assert (x + r' + multiset{} + l) + (p + q) == (x + p) + (q + r' + l);
      assert (y + r + multiset{} + m) + (p + q) == (y + q) + (p + r + m);
    }
    assert ((x + r' + multiset{} + l) + (p + q)) - (p + q) == x + r' + multiset{} + l;
    assert ((y + r + multiset{} + m) + (p + q)) - (p + q) == y + r + multiset{} + m;
  }

  function Without(roots: seq<Handle>, j: nat): seq<Handle>
    requires j < |roots|
  {
    roots[..j] + roots[j + 1..]
  }

  lemma WithoutCounts(roots: seq<Handle>, j: nat)
    requires j < |roots|
    ensures multiset(roots) == multiset(Without(roots, j)) + multiset{roots[j]}
  {
    assert roots == roots[..j] + [roots[j]] + roots[j + 1..];
  }

  /** What is left of an allocation when its value has been moved out through the last `Rc`. */
  function MovedOut(c: Cell): Cell
    requires c.weak > 0
  {
    c.(strong := 0, weak := c.weak - 1, phase := if c.weak == 1 then Freed else Dead, value := [], pending := [], script := [])
  }

  lemma MoveOutKeeps(cells: seq<Cell>, roots: seq<Handle>, log: seq<nat>, j: nat)
    requires Inv(cells, roots, log, multiset{}) && j < |roots| && roots[j].Strong?
    requires roots[j].id < |cells| && cells[roots[j].id].strong == 1
    ensures cells[roots[j].id].weak > 0
    ensures Inv(cells[roots[j].id := MovedOut(cells[roots[j].id])], Without(roots, j) + cells[roots[j].id].value, log, multiset{})
  {
    hide LogOk, All, Without;
    var id := roots[j].id;
    Pointee(cells, roots, log, multiset{}, roots[j]);
    WithoutCounts(roots, j);
    var c := MovedOut(cells[id]);
    assert Lost(cells[id], c, id) == multiset{Strong(id)} && Made(cells[id], c, id) == multiset{};
    assert multiset([]) + multiset(Without(roots, j) + cells[id].value) + multiset{Strong(id)}
        == multiset(cells[id].value) + multiset(roots) + multiset{};
    MoveKeeps(cells, roots, log, id, c, Without(roots, j) + cells[id].value);
  }

  lemma ValueNotLogged(cells: seq<Cell>, log: seq<nat>, id: nat)
    requires LogOk(cells, log) && id < |cells| && !Gone(cells[id].phase)
    ensures forall x: nat :: Strong(x) in cells[id].value || Unique(x) in cells[id].value ==> x !in log
  {
    assert id !in log;
    forall x: nat | Strong(x) in cells[id].value || Unique(x) in cells[id].value ensures x !in log {
      assert Edge(cells, id, x);
    }
  }

  lemma IntoRcKeeps(cells: seq<Cell>, roots: seq<Handle>, log: seq<nat>, j: nat)
    requires Inv(cells, roots, log, multiset{}) && j < |roots| && roots[j].Unique? && roots[j].id < |cells|
    ensures Inv(cells[roots[j].id := cells[roots[j].id].(strong := 1, phase := Alive)], roots[j := Strong(roots[j].id)], log, multiset{})
  {
    hide LogOk, All;
    var id := roots[j].id;
    Pointee(cells, roots, log, multiset{}, roots[j]);
    ValueNotLogged(cells, log, id);
    var c := cells[id].(strong := 1, phase := Alive);
    MoveKeeps(cells, roots, log, id, c, roots[j := Strong(id)]);
  }

  lemma PublishKeeps(cells: seq<Cell>, roots: seq<Handle>, log: seq<nat>, id: nat, k: nat)
    requires Inv(cells, roots, log, multiset{}) && id < |cells| && cells[id].phase.Building? && k <= |roots|
    ensures var c := cells[id].(strong := 1, phase := Alive, value := Last(roots, k), pending := Last(roots, k));
            Inv(cells[id := c], Rest(roots, k) + [Strong(id)], log, multiset{})
  {
    hide LogOk, All;
    var c := cells[id].(strong := 1, phase := Alive, value := Last(roots, k), pending := Last(roots, k));
    assert CellOk(cells[id], All(cells) + multiset(roots) + multiset{}, id);
    RootsNotLogged(cells, roots, log, k);
    assert roots == Rest(roots, k) + Last(roots, k);
    MoveKeeps(cells, roots, log, id, c, Rest(roots, k) + [Strong(id)]);
  }

  lemma UnwindKeeps(cells: seq<Cell>, roots: seq<Handle>, log: seq<nat>, id: nat)
    requires Inv(cells, roots, log, multiset{}) && id < |cells| && cells[id].phase.Building?
    ensures cells[id].weak > 0 && Inv(cells[id := MovedOut(cells[id])], roots, log, multiset{})
  {
    hide LogOk, All;
    assert CellOk(cells[id], All(cells) + multiset(roots) + multiset{}, id);
    MoveKeeps(cells, roots, log, id, MovedOut(cells[id]), roots);
  }

  /** Interior mutability: a field of a value and a handle of the program change places. */
  lemma SwapKeeps(cells: seq<Cell>, roots: seq<Handle>, log: seq<nat>, id: nat, f: nat, j: nat)
    requires Inv(cells, roots, log, multiset{}) && id < |cells| && Owned(cells[id].phase)
    requires f < |cells[id].value| && j < |roots|
    ensures var v := cells[id].value[f := roots[j]];
            Inv(cells[id := cells[id].(value := v, pending := v)], roots[j := cells[id].value[f]], log, multiset{})
  {
    hide LogOk, All;
    var a, b := cells[id].value[f], roots[j];
    var v := cells[id].value[f := b];
    assert CellOk(cells[id], All(cells) + multiset(roots) + multiset{}, id);
    ValueNotLogged(cells, log, id);
    RootsNotLogged(cells, roots, log, |roots|);
    assert Last(roots, |roots|) == roots;
    assert multiset(v) + multiset(roots[j := a]) == multiset(cells[id].value) + multiset(roots);
    MoveKeeps(cells, roots, log, id, cells[id].(value := v, pending := v), roots[j := a]);
  }
}
