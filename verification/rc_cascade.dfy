/** Dropping an `Rc`: the recursive destruction of values, run on the heap in place. */
module RcCascade {
  import opened Common
  import opened RcState
  import opened RcKeeps
  import opened RcReach
  import opened RcSemantics

  // ---- how the steps of a destructor compose ----

  lemma SetCell(a: seq<Cell>, log: seq<nat>, id: nat, c: Cell)
    requires id < |a| && c.value == a[id].value && |c.pending| + |c.script| <= |a[id].pending| + |a[id].script|
    ensures Cascade(a, log, a[id := c], log, {id})
    ensures Evolves(a[id], c) && !(Owned(a[id].phase) && !Owned(c.phase)) ==> Cascade(a, log, a[id := c], log, {})
  {
    WorkUpdate(a, id, c);
    forall x | 0 <= x < |a| && x != id ensures Evolves(a[x], a[id := c][x]) {}
  }

  /** Counts move, and the memory may go when the value is gone already. */
  lemma CountsMove(a: seq<Cell>, log: seq<nat>, id: nat, c: Cell)
    requires id < |a| && c == a[id].(strong := c.strong, weak := c.weak, phase := c.phase)
    requires c.phase == a[id].phase || (a[id].phase.Dead? && c.phase.Freed?)
    ensures Cascade(a, log, a[id := c], log, {})
  {
    hide Cascade;
    SetCell(a, log, id, c);
  }

  lemma CellAt(cells: seq<Cell>, roots: seq<Handle>, log: seq<nat>, id: nat)
    requires Inv(cells, roots, log, multiset{}) && id < |cells|
    ensures cells[id].strong <= USIZE_MAX && cells[id].weak <= USIZE_MAX
    ensures (cells[id].strong > 0 <==> cells[id].phase.Alive?) && (cells[id].weak > 0 <==> !cells[id].phase.Freed?)
  {
    hide LogOk, All;
    assert CellOk(cells[id], All(cells) + multiset(roots) + multiset{}, id);
  }

  /** What a nested cascade does to a cell whose destructor is running: nothing. */
  lemma InsideDestructor(a: seq<Cell>, la: seq<nat>, b: seq<Cell>, lb: seq<nat>, id: nat)
    requires Cascade(a, la, b, lb, {}) && id < |a| && a[id].phase.Dropping?
    ensures |a| == |b| && Work(b) <= Work(a) && Cascade(a, la, b, lb, {id})
    ensures b[id].phase.Dropping? && b[id].value == a[id].value
    ensures b[id].pending == a[id].pending && b[id].script == a[id].script
  {
    assert Evolves(a[id], b[id]);
  }

  lemma WholeDestructor(a: seq<Cell>, la: seq<nat>, id: nat, b: seq<Cell>, lb: seq<nat>)
    requires id < |a| && Owned(a[id].phase)
    requires Cascade(a[id := a[id].(strong := 0, phase := Dropping)], la + [id], b, lb, {id})
    requires b[id].phase.Dead? || b[id].phase.Freed?
    ensures Cascade(a, la, b, lb, {})
  {
    var c := a[id := a[id].(strong := 0, phase := Dropping)];
    WorkUpdate(a, id, c[id]);
    assert id in la + [id];
    forall x | 0 <= x < |a| && x != id
      ensures Evolves(a[x], b[x]) && (x in lb <==> x in la || (Owned(a[x].phase) && !Owned(b[x].phase)))
    {
      assert a[x] == c[x] && Evolves(c[x], b[x]);
      assert x in la + [id] <==> x in la;
    }
  }

  /** Cells differ at most in larger counts. */
  predicate OnlyMore(a: seq<Cell>, b: seq<Cell>) {
    |a| == |b| && forall id :: 0 <= id < |a| ==>
      a[id].strong <= b[id].strong && a[id].weak <= b[id].weak && b[id] == a[id].(strong := b[id].strong, weak := b[id].weak)
  }

  /** A value whose destructor is running: the memory stays, and so do its remaining fields and code. */
  predicate LeftAlone(a: Cell, b: Cell) {
    b.phase.Dropping? && b.weak > 0 && b.value == a.value && b.pending == a.pending && b.script == a.script
  }

  /** `h` is the last handle that owns its value. */
  predicate IsLast(cells: seq<Cell>, h: Handle) {
    h.id < |cells| && ((h.Strong? && cells[h.id].strong == 1) || h.Unique?)
  }

  /** The value of `id` is gone, and was the first whose destructor started after `la`. */
  predicate Destroyed(la: seq<nat>, b: seq<Cell>, lb: seq<nat>, id: nat) {
    id < |b| && (b[id].phase.Dead? || b[id].phase.Freed?) && la + [id] <= lb
  }

  lemma LogExtends(a: seq<Cell>, la: seq<nat>, b: seq<Cell>, lb: seq<nat>, id: nat)
    requires Cascade(a, la, b, lb, {id})
    ensures la <= lb && |a| == |b|
  {
  }

  lemma RunningLeftAlone(a: seq<Cell>, la: seq<nat>, b: seq<Cell>, lb: seq<nat>, roots: seq<Handle>)
    requires Cascade(a, la, b, lb, {}) && Inv(b, roots, lb, multiset{})
    ensures |a| == |b| && forall id :: 0 <= id < |a| && a[id].phase.Dropping? ==> LeftAlone(a[id], b[id])
  {
    hide LogOk, All, Cascade;
    CascadeLog(a, la, b, lb);
    forall id | 0 <= id < |a| && a[id].phase.Dropping? ensures LeftAlone(a[id], b[id]) {
      InsideDestructor(a, la, b, lb, id);
      CellAt(b, roots, lb, id);
    }
  }

  /** No destructor does anything of its own. */
  predicate Calm(cells: seq<Cell>) { forall id :: 0 <= id < |cells| ==> cells[id].script == [] }

  class RcHeap {
    var cells: seq<Cell>
    var roots: seq<Handle>
    ghost var log: seq<nat>
    var aborted: bool

    ghost predicate Valid()
      reads this
    {
      !aborted && Inv(cells, roots, log, multiset{})
    }

    ghost function Now(): Heap
      reads this
    {
      Heap(cells, roots, log)
    }

    constructor ()
      ensures Valid() && cells == [] && roots == [] && log == []
    {
      cells, roots, log, aborted := [], [], [], false;
    }

    // ---- RcInnerPtr ----

    /** `inc_strong`: wraps, and aborts the process if that made it 0. */
    method IncStrong(id: nat)
      requires Valid() && id < |cells| && cells[id].phase.Alive?
      modifies this
      ensures aborted <==> old(cells)[id].strong == USIZE_MAX
      ensures !aborted ==> Valid() && roots == old(roots) + [Strong(id)] && log == old(log)
      ensures !aborted ==> cells == old(cells)[id := old(cells)[id].(strong := old(cells)[id].strong + 1)]
    {
      hide Inv, Cascade, Work, CellOk, All, Evolves;
      CellAt(cells, roots, log, id);
      var strong := (cells[id].strong + 1) % (USIZE_MAX + 1);
      if strong == 0 {
        aborted := true;
      } else {
        IncStrongKeeps(cells, roots, log, id);
        roots := roots + [Strong(id)];
      }
      cells := cells[id := cells[id].(strong := strong)];
    }

    method IncWeak(id: nat)
      requires Valid() && id < |cells| && cells[id].weak > 0
      modifies this
      ensures aborted <==> old(cells)[id].weak == USIZE_MAX
      ensures !aborted ==> Valid() && roots == old(roots) + [Weak(id)] && log == old(log)
      ensures !aborted ==> cells == old(cells)[id := old(cells)[id].(weak := old(cells)[id].weak + 1)]
    {
      hide Inv, Cascade, Work, CellOk, All, Evolves;
      CellAt(cells, roots, log, id);
      var weak := (cells[id].weak + 1) % (USIZE_MAX + 1);
      if weak == 0 {
        aborted := true;
      } else {
        IncWeakKeeps(cells, roots, log, id);
        roots := roots + [Weak(id)];
      }
      cells := cells[id := cells[id].(weak := weak)];
    }

    /** `Weak::upgrade`: `Some` exactly while the value is owned by `Rc`s; never once its destructor
        has started, nor before `new_cyclic` or a `UniqueRc` is done. */
    method Upgrade(id: nat) returns (some: bool)
      requires Valid() && id < |cells| && cells[id].weak > 0
      modifies this
      ensures aborted <==> old(cells)[id].strong == USIZE_MAX
      ensures !aborted ==> (some <==> old(cells)[id].phase.Alive?)
      ensures !aborted ==> Valid() && log == old(log) && roots == if some then old(roots) + [Strong(id)] else old(roots)
      ensures !aborted ==> cells == if some then old(cells)[id := old(cells)[id].(strong := old(cells)[id].strong + 1)] else old(cells)
    {
      hide Inv, Cascade, Work, CellOk, All, Evolves;
      CellAt(cells, roots, log, id);
      if cells[id].strong == 0 {
        some := false;
      } else {
        IncStrong(id);
        some := true;
      }
    }

    /** The clone of a handle: an `Rc` or a `Weak`; a `UniqueRc` has none. */
    method CloneHandle(h: Handle)
      requires Valid() && h.id < |cells| && (h.Strong? ==> cells[h.id].phase.Alive?) && (h.Weak? ==> cells[h.id].weak > 0)
      modifies this
      ensures aborted <==> AtMost(old(cells), h)
      ensures !aborted ==> Valid() && log == old(log) && Cascade(old(cells), old(log), cells, log, {})
      ensures !aborted ==> roots == if h.Unique? then old(roots) else old(roots) + [h]
      ensures !aborted ==> OnlyMore(old(cells), cells) && Clones(old(Now()), h, Now())
    {
      hide Inv, Cascade, Work, CellOk, All, Evolves;
      match h
      case Strong(id) =>
        CountsMove(cells, log, id, cells[id].(strong := cells[id].strong + 1));
        IncStrong(id);
      case Weak(id) =>
        CountsMove(cells, log, id, cells[id].(weak := cells[id].weak + 1));
        IncWeak(id);
      case Unique(_) => Unchanged(cells, log);
    }

    // ---- the cascade ----

    /** Drop one handle, taken out of wherever it was. It always returns: every nested call has
        less left to do. */
    method Drop(h: Handle)
      requires !aborted && Inv(cells, roots, log, multiset{h}) && h.id < |cells|
      modifies this
      ensures !aborted ==> Valid() && Cascade(old(cells), old(log), cells, log, {}) && |cells| == |old(cells)|
      ensures !aborted ==> forall id :: 0 <= id < |cells| && old(cells)[id].phase.Dropping? ==> LeftAlone(old(cells)[id], cells[id])
      ensures !aborted && IsLast(old(cells), h) ==> Destroyed(old(log), cells, log, h.id)
      ensures if aborted then DropAborts(old(Now()), h) else Drops(old(Now()), h, Now())
      ensures Calm(old(cells)) ==> !aborted && Calm(cells) && roots == old(roots)
      ensures old(cells)[h.id].strong > 1 && h.Strong? ==> !aborted && roots == old(roots) && log == old(log)
      ensures var c := old(cells)[h.id];
              c.strong > 1 && h.Strong? ==> cells == old(cells)[h.id := c.(strong := c.strong - 1)]
      decreases Work(cells), 2
    {
      hide Inv, Cascade, Work, CellOk, All, Evolves, Destroys, DestroyAborts;
      Pointee(cells, roots, log, multiset{h}, h);
      match h {
        case Weak(id) =>
          DecWeakKeeps(cells, roots, log, id);
          CountsMove(cells, log, id, WeakGone(cells[id]));
          cells := cells[id := WeakGone(cells[id])];
        case Strong(id) =>
          if cells[id].strong == 1 {
            Destroy(h);
          } else {
            DecStrongKeeps(cells, roots, log, id);
            CountsMove(cells, log, id, cells[id].(strong := cells[id].strong - 1));
            cells := cells[id := cells[id].(strong := cells[id].strong - 1)];
          }
        case Unique(_) => Destroy(h);
      }
      if !aborted { RunningLeftAlone(old(cells), old(log), cells, log, roots); }
    }

    /** `drop_slow`, and the drop of a `UniqueRc`: destroy the value, then give up the weak
        reference its owners shared, which kept the memory while the destructor ran. */
    method Destroy(h: Handle)
      requires !aborted && Inv(cells, roots, log, multiset{h}) && h.id < |cells|
      requires (h.Strong? && cells[h.id].strong == 1) || h.Unique?
      modifies this
      ensures !aborted ==> Valid() && Cascade(old(cells), old(log), cells, log, {})
      ensures !aborted ==> Destroyed(old(log), cells, log, h.id)
      ensures if aborted then DestroyAborts(old(Now()), h.id) else Destroys(old(Now()), h.id, Now())
      ensures Calm(old(cells)) ==> !aborted && Calm(cells) && roots == old(roots)
      decreases Work(cells), 1
    {
      hide Inv, Cascade, Work, CellOk, All, Evolves, Drops, DropsFields, RunsScript, Destroys, DropAborts, DestroyAborts, ScriptAborts, FieldsAbort;
      var id := h.id;
      StartKeeps(cells, roots, log, h);
      WorkUpdate(cells, id, cells[id].(strong := 0, phase := Dropping));
      cells := cells[id := cells[id].(strong := 0, phase := Dropping)];
      log := log + [id];
      ghost var c0, l0 := cells, log;
      Unchanged(cells, log);
      RunScript(id, c0, l0);
      if aborted {
        DestructionAborts(old(Now()), id, Begun(old(Now()), id));
        return;
      }
      ghost var m := Now();
      DropFields(id, c0, l0);
      if aborted {
        DestructionAborts(old(Now()), id, m);
        return;
      }
      ghost var n := Now();
      FinishKeeps(cells, roots, log, id);
      SetCell(cells, log, id, ValueGone(cells[id]));
      Compose(c0, l0, cells, log, cells[id := ValueGone(cells[id])], log, id);
      cells := cells[id := ValueGone(cells[id])];
      WholeDestructor(old(cells), old(log), id, cells, log);
      LogExtends(c0, l0, cells, log, id);
      WholeDestruction(old(Now()), id, m, n, Now());
    }

    /** The fields go, in order. */
    method DropFields(id: nat, ghost c0: seq<Cell>, ghost l0: seq<nat>)
      requires Valid() && id < |cells| && cells[id].phase.Dropping? && cells[id].script == [] && Cascade(c0, l0, cells, log, {id})
      modifies this
      ensures !aborted ==> Valid() && Cascade(c0, l0, cells, log, {id}) && Work(cells) <= old(Work(cells))
      ensures !aborted ==> |cells| == old(|cells|) && cells[id].phase.Dropping? && cells[id].script == [] && cells[id].pending == []
      ensures if aborted then FieldsAbort(old(Now()), id) else DropsFields(old(Now()), id, Now())
      ensures Calm(old(cells)) ==> !aborted && Calm(cells) && roots == old(roots)
      decreases Work(cells), 0
    {
      hide Inv, Cascade, Work, CellOk, All, Evolves, Drops, DropsFields, DropAborts, FieldsAbort;
      while cells[id].pending != []
        invariant !aborted && forall b :: DropsFields(Now(), id, b) ==> DropsFields(old(Now()), id, b)
        invariant FieldsAbort(Now(), id) ==> FieldsAbort(old(Now()), id)
        invariant Valid() && Cascade(c0, l0, cells, log, {id}) && Work(cells) <= old(Work(cells))
        invariant |cells| == old(|cells|) && cells[id].phase.Dropping? && cells[id].script == []
        invariant Calm(old(cells)) ==> Calm(cells) && roots == old(roots)
        decreases Work(cells)
      {
        ghost var was := Now();
        var f := cells[id].pending[0];
        TakeKeeps(cells, roots, log, id);
        SetCell(cells, log, id, cells[id].(pending := cells[id].pending[1..]));
        Compose(c0, l0, cells, log, cells[id := cells[id].(pending := cells[id].pending[1..])], log, id);
        cells := cells[id := cells[id].(pending := cells[id].pending[1..])];
        ghost var c1, l1 := cells, log;
        Pointee(cells, roots, log, multiset{f}, f);
        Drop(f);
        if aborted {
          FieldAbortsNow(was, id);
          return;
        }
        InsideDestructor(c1, l1, cells, log, id);
        Compose(c0, l0, c1, l1, cells, log, id);
        FieldStep(was, id, Now());
      }
      NoneLeft(Now(), id);
    }

    /** The destructor's own code. It may reach other objects, and itself through a `Weak`. */
    method RunScript(id: nat, ghost c0: seq<Cell>, ghost l0: seq<nat>)
      requires Valid() && id < |cells| && cells[id].phase.Dropping? && Cascade(c0, l0, cells, log, {id})
      modifies this
      ensures !aborted ==> Valid() && Cascade(c0, l0, cells, log, {id}) && Work(cells) <= old(Work(cells))
      ensures !aborted ==> |cells| == old(|cells|) && cells[id].phase.Dropping? && cells[id].script == []
      ensures if aborted then ScriptAborts(old(Now()), id) else RunsScript(old(Now()), id, Now())
      ensures old(cells)[id].script == [] ==> !aborted && cells == old(cells) && log == old(log) && roots == old(roots)
      decreases Work(cells), 0
    {
      hide Inv, Cascade, Work, CellOk, All, Evolves, RunsScript, Performs, ScriptAborts, ActAborts;
      while cells[id].script != []
        invariant !aborted && forall b :: RunsScript(Now(), id, b) ==> RunsScript(old(Now()), id, b)
        invariant ScriptAborts(Now(), id) ==> ScriptAborts(old(Now()), id)
        invariant Valid() && Cascade(c0, l0, cells, log, {id}) && Work(cells) <= old(Work(cells))
        invariant |cells| == old(|cells|) && cells[id].phase.Dropping?
        invariant old(cells)[id].script == [] ==> cells == old(cells) && log == old(log) && roots == old(roots)
        decreases Work(cells)
      {
        ghost var was := Now();
        var act := cells[id].script[0];
        ScriptKeeps(cells, roots, log, id);
        SetCell(cells, log, id, cells[id].(script := cells[id].script[1..]));
        Compose(c0, l0, cells, log, cells[id := cells[id].(script := cells[id].script[1..])], log, id);
        cells := cells[id := cells[id].(script := cells[id].script[1..])];
        ghost var c1, l1 := cells, log;
        Perform(act, id);
        if aborted {
          ActAbortsNow(was, id);
          return;
        }
        InsideDestructor(c1, l1, cells, log, id);
        Compose(c0, l0, c1, l1, cells, log, id);
        ScriptStep(was, id, Now());
      }
      NoneLeft(Now(), id);
    }

    /** One act of a destructor: a `Weak` field to a value that is alive gives one more `Rc` to it, a
        clone gives that handle, and dropping the program's handle `j` takes it away. */
    method Perform(act: Act, id: nat)
      requires Valid() && id < |cells|
      modifies this
      ensures !aborted ==> Valid() && Cascade(old(cells), old(log), cells, log, {})
      ensures if aborted then ActAborts(old(Now()), act, id) else Performs(old(Now()), act, id, Now())
      ensures !aborted && act.UpgradeField? && act.i < |old(cells)[id].pending| && old(cells)[id].pending[act.i].Weak? ==>
                var w := old(cells)[id].pending[act.i].id;
                w < |old(cells)| && roots == if old(cells)[w].phase.Alive? then old(roots) + [Strong(w)] else old(roots)
      ensures !aborted && act.CloneField? && act.i < |old(cells)[id].pending| && !old(cells)[id].pending[act.i].Unique? ==>
                roots == old(roots) + [old(cells)[id].pending[act.i]]
      ensures !aborted && act.DropOther? && act.i < |old(roots)| && IsLast(old(cells), old(roots)[act.i]) ==>
                Destroyed(old(log), cells, log, old(roots)[act.i].id)
      ensures act.DropOther? && act.i < |old(roots)| && Calm(old(cells)) ==> !aborted && roots == Without(old(roots), act.i)
      decreases Work(cells), 3
    {
      hide Inv, Cascade, Work, CellOk, All, Evolves, Drops, DropAborts;
      Unchanged(cells, log);
      match act
      case UpgradeField(i) =>
        if i < |cells[id].pending| && cells[id].pending[i].Weak? {
          FieldPointee(cells, roots, log, id, i);
          var w := cells[id].pending[i].id;
          CellAt(cells, roots, log, w);
          if cells[w].phase.Alive? { CountsMove(cells, log, w, cells[w].(strong := cells[w].strong + 1)); }
          var _ := Upgrade(w);
        }
      case CloneField(i) =>
        if i < |cells[id].pending| {
          FieldPointee(cells, roots, log, id, i);
          CloneHandle(cells[id].pending[i]);
        }
      case DropOther(j) =>
        if j < |roots| {
          var h := roots[j];
          RootKeeps(cells, roots, log, j);
          roots := roots[..j] + roots[j + 1..];
          Pointee(cells, roots, log, multiset{h}, h);
          Drop(h);
        }
    }

    // ---- what a program does with its handles, `roots` ----

    /** No destructor is running. */
    ghost predicate Idle()
      reads this
    {
      Valid() && Quiet(cells)
    }

    /** `Rc::new`, its value made of the program's last `k` handles. */
    method New(k: nat, script: seq<Act>) returns (id: nat)
      requires Idle() && k <= |roots|
      modifies this
      ensures Idle() && log == old(log) && id == |old(cells)|
      ensures cells == old(cells) + [Cell(1, 1, Alive, Last(old(roots), k), Last(old(roots), k), script)]
      ensures roots == Rest(old(roots), k) + [Strong(id)]
    {
      id := |cells|;
      var c := Cell(1, 1, Alive, Last(roots, k), Last(roots, k), script);
      NewKeeps(cells, roots, log, k, c, [Strong(id)]);
      cells, roots := cells + [c], Rest(roots, k) + [Strong(id)];
    }

    /** `UniqueRc::new_in`: the strong count starts at 0. */
    method NewUnique(k: nat, script: seq<Act>) returns (id: nat)
      requires Idle() && k <= |roots|
      modifies this
      ensures Idle() && log == old(log) && id == |old(cells)|
      ensures cells == old(cells) + [Cell(0, 1, Lone, Last(old(roots), k), Last(old(roots), k), script)]
      ensures roots == Rest(old(roots), k) + [Unique(id)]
    {
      id := |cells|;
      var c := Cell(0, 1, Lone, Last(roots, k), Last(roots, k), script);
      NewKeeps(cells, roots, log, k, c, [Unique(id)]);
      cells, roots := cells + [c], Rest(roots, k) + [Unique(id)];
    }

    /** `UniqueRc::into_rc`: from now on its `Weak`s upgrade. */
    method IntoRc(j: nat)
      requires Idle() && j < |roots| && roots[j].Unique?
      modifies this
      ensures Idle() && log == old(log) && roots == old(roots)[j := Strong(old(roots)[j].id)]
      ensures var id := old(roots)[j].id; id < |old(cells)| && cells == old(cells)[id := old(cells)[id].(strong := 1, phase := Alive)]
    {
      hide Inv;
      Pointee(cells, roots, log, multiset{}, roots[j]);
      IntoRcKeeps(cells, roots, log, j);
      var id := roots[j].id;
      cells := cells[id := cells[id].(strong := 1, phase := Alive)];
      roots := roots[j := Strong(id)];
    }

    /** `new_cyclic_in` up to the call of its closure, which may clone the `Weak` it is lent. */
    method BeginCyclic(script: seq<Act>) returns (id: nat)
      requires Idle()
      modifies this
      ensures Idle() && log == old(log) && id == |old(cells)| && roots == old(roots)
      ensures cells == old(cells) + [Cell(0, 1, Building, [], [], script)]
    {
      id := |cells|;
      var c := Cell(0, 1, Building, [], [], script);
      assert Last(roots, 0) == [] && Rest(roots, 0) + [] == roots;
      NewKeeps(cells, roots, log, 0, c, []);
      cells := cells + [c];
    }

    /** The closure has returned: its result becomes the value, the lent `Weak` the owners' own. */
    method EndCyclic(id: nat, k: nat)
      requires Idle() && id < |cells| && cells[id].phase.Building? && k <= |roots|
      modifies this
      ensures Idle() && log == old(log) && roots == Rest(old(roots), k) + [Strong(id)]
      ensures var v := Last(old(roots), k);
              cells == old(cells)[id := old(cells)[id].(strong := 1, phase := Alive, value := v, pending := v)]
    {
      hide Inv;
      PublishKeeps(cells, roots, log, id, k);
      var v := Last(roots, k);
      cells := cells[id := cells[id].(strong := 1, phase := Alive, value := v, pending := v)];
      roots := Rest(roots, k) + [Strong(id)];
    }

    /** The closure has panicked: the lent `Weak` is dropped, and the memory stays for its clones. */
    method UnwindCyclic(id: nat)
      requires Idle() && id < |cells| && cells[id].phase.Building?
      modifies this
      ensures Idle() && log == old(log) && roots == old(roots) && |cells| == |old(cells)|
      ensures cells[id].phase == if Weak(id) in Handles() then Dead else Freed
      ensures old(cells)[id].weak > 0 && cells == old(cells)[id := MovedOut(old(cells)[id])]
    {
      hide Inv;
      UnwindKeeps(cells, roots, log, id);
      cells := cells[id := MovedOut(cells[id])];
      Memory(cells, roots, log, id);
    }

    /** Every handle there is, the program's and the values'. */
    ghost function Handles(): multiset<Handle>
      reads this
    {
      All(cells) + multiset(roots)
    }

    /** `Rc::clone` and `Weak::clone`. */
    method Clone(j: nat)
      requires Idle() && j < |roots| && !roots[j].Unique?
      modifies this
      ensures aborted <==> AtMost(old(cells), old(roots)[j])
      ensures !aborted ==> Clones(old(Now()), old(roots)[j], Now())
      ensures !aborted ==> Idle() && log == old(log) && roots == old(roots) + [old(roots)[j]]
      ensures !aborted ==> Cascade(old(cells), old(log), cells, log, {})
    {
      hide Inv, Cascade;
      Pointee(cells, roots, log, multiset{}, roots[j]);
      ghost var was := cells;
      CloneHandle(roots[j]);
      if !aborted { CascadeGraph(was, old(log), cells, log); }
    }

    /** `Rc::downgrade` and `UniqueRc::downgrade`. */
    method Downgrade(j: nat)
      requires Idle() && j < |roots|
      modifies this
      ensures aborted <==> AtMost(old(cells), Weak(old(roots)[j].id))
      ensures !aborted ==> Clones(old(Now()), Weak(old(roots)[j].id), Now())
      ensures !aborted ==> Idle() && log == old(log) && roots == old(roots) + [Weak(old(roots)[j].id)]
    {
      hide Inv;
      Pointee(cells, roots, log, multiset{}, roots[j]);
      CellAt(cells, roots, log, roots[j].id);
      IncWeak(roots[j].id);
    }

    /** `Weak::upgrade`. */
    method UpgradeRoot(j: nat) returns (some: bool)
      requires Idle() && j < |roots| && roots[j].Weak?
      modifies this
      ensures old(roots)[j].id < |old(cells)| && (aborted <==> old(cells)[old(roots)[j].id].strong == USIZE_MAX)
      ensures !aborted ==> Upgrades(old(Now()), old(roots)[j].id, Now())
      ensures !aborted ==> (some <==> old(cells)[old(roots)[j].id].phase.Alive?)
      ensures !aborted ==> Idle() && log == old(log)
      ensures !aborted ==> roots == if some then old(roots) + [Strong(old(roots)[j].id)] else old(roots)
    {
      hide Inv;
      Pointee(cells, roots, log, multiset{}, roots[j]);
      CellAt(cells, roots, log, roots[j].id);
      some := Upgrade(roots[j].id);
    }

    /** `Rc::get_mut` (`is_unique`): true exactly when no other handle to the allocation exists. */
    method GetMut(j: nat) returns (ok: bool)
      requires Idle() && j < |roots| && roots[j].Strong?
      ensures ok <==> Handles()[Strong(roots[j].id)] == 1 && Handles()[Weak(roots[j].id)] == 0
    {
      Pointee(cells, roots, log, multiset{}, roots[j]);
      var id := roots[j].id;
      assert All(cells) + multiset(roots) + multiset{} == Handles();
      ok := cells[id].weak - 1 == 0 && cells[id].strong == 1;
    }

    /** Dropping a handle. Without cycles exactly the values that the handles left do not reach are
        destroyed, each after all that owned it; whatever is reached, or on a cycle, is spared.
        If no destructor keeps or drops handles of its own, the handles left are the others. */
    method DropRoot(j: nat)
      requires Idle() && j < |roots|
      modifies this
      ensures !aborted ==> Idle() && old(log) <= log && |cells| == |old(cells)|
      ensures !aborted ==> forall id :: 0 <= id < |cells| && Owned(old(cells)[id].phase) ==> Spares(old(cells), cells, roots, id)
      ensures var was := old(Now()).(roots := Without(old(roots), j));
              if aborted then DropAborts(was, old(roots)[j]) else Drops(was, old(roots)[j], Now())
      ensures Calm(old(cells)) ==> !aborted && roots == Without(old(roots), j)
    {
      hide Inv, Cascade, Calm, Drops, DropAborts;
      ghost var was, wasLog := cells, log;
      var h := roots[j];
      RootKeeps(cells, roots, log, j);
      roots := Without(roots, j);
      Pointee(cells, roots, log, multiset{h}, h);
      Drop(h);
      if aborted { return; }
      CascadeGraph(was, wasLog, cells, log);
      CascadeLog(was, wasLog, cells, log);
      forall id | 0 <= id < |was| && Owned(was[id].phase) ensures Spares(was, cells, roots, id) {
        OwnedNotLogged(was, old(roots), wasLog, id);
        CascadeIsExact(was, wasLog, cells, log, roots, id);
      }
    }

    /** `Rc::try_unwrap` (and `into_inner`, which drops the handle otherwise): the value moves to
        the program, undestroyed, exactly when this is its only owner. */
    method TryUnwrap(j: nat) returns (ok: bool)
      requires Idle() && j < |roots| && roots[j].Strong?
      modifies this
      ensures Idle() && log == old(log)
      ensures var id := old(roots)[j].id;
              id < |old(cells)| && (ok <==> old(Handles())[Strong(id)] == 1)
              && roots == if ok then Without(old(roots), j) + old(cells)[id].value else old(roots)
      ensures !ok ==> cells == old(cells)
      ensures var id := old(roots)[j].id;
              ok ==> old(cells)[id].weak > 0 && cells == old(cells)[id := MovedOut(old(cells)[id])] && !Owned(cells[id].phase)
    {
      hide Inv, Without, All, CellOk;
      Pointee(cells, roots, log, multiset{}, roots[j]);
      StrongIsCount(cells, roots, log, roots[j].id);
      var id := roots[j].id;
      ok := cells[id].strong == 1;
      if ok {
        MoveOutKeeps(cells, roots, log, j);
        roots := Without(roots, j) + cells[id].value;
        cells := cells[id := MovedOut(cells[id])];
      }
    }

    /** `Rc::make_mut` on the handle at `j`, whose value can be cloned. The handle the program is
        left with (at `r`) is the only one to its allocation and owns the same value: the value
        stays if it was unique, is moved out from under the remaining `Weak`s, which keep the old
        memory and no longer upgrade, or is cloned, and then the old value stays with its owners. */
    method MakeMut(j: nat) returns (r: nat)
      requires Idle() && j < |roots| && roots[j].Strong?
      requires roots[j].id < |cells| && forall h :: h in cells[roots[j].id].value ==> !h.Unique?
      modifies this
      ensures var c := old(cells)[old(roots)[j].id]; aborted <==> c.strong != 1 && CloneOverflows(old(cells), c.value)
      ensures !aborted ==> Idle() && log == old(log) && r < |roots| && roots[r].Strong? && roots[r].id < |cells|
      ensures !aborted ==> Handles()[roots[r]] == 1 && Handles()[Weak(roots[r].id)] == 0
      ensures !aborted ==> cells[roots[r].id].value == old(cells)[old(roots)[j].id].value
      ensures !aborted ==> |old(cells)| <= |cells|
      ensures var id, hs := old(roots)[j].id, old(Handles());
              !aborted ==> cells[id].phase == if hs[Strong(id)] == 1 && hs[Weak(id)] > 0 then Dead else Alive
      ensures !aborted ==> multiset(roots) == multiset(old(roots)) - multiset{old(roots)[j]} + multiset{roots[r]}
      ensures var id, hs := old(roots)[j].id, old(Handles());
              !aborted ==> if hs[Strong(id)] == 1 && hs[Weak(id)] == 0 then r == j && cells == old(cells) && roots == old(roots)
                           else Replaced(old(Now()), j, hs[Strong(id)] == 1, Now())
    {
      hide Inv, Calm, CloneOverflows, Replaced, All, CellOk, Without, Quiet;
      var id := roots[j].id;
      StrongPointee(cells, roots, log, j);
      if cells[id].strong != 1 {
        CloneAway(j);
        if aborted { return 0; }
        AfterReplaced(old(Now()), j, false, Now());
        r := |roots| - 1;
      } else if cells[id].weak - 1 != 0 {
        MoveAway(j);
        AfterReplaced(old(Now()), j, true, Now());
        r := |roots| - 1;
      } else {
        r := j;
        InPlace(roots, j);
      }
    }

    /** There are other `Rc`s: the value is cloned, and the handle to the old one dropped. */
    method CloneAway(j: nat)
      requires Idle() && j < |roots| && roots[j].Strong?
      requires roots[j].id < |cells| && cells[roots[j].id].strong > 1 && forall h :: h in cells[roots[j].id].value ==> !h.Unique?
      modifies this
      ensures aborted <==> CloneOverflows(old(cells), old(cells)[old(roots)[j].id].value)
      ensures !aborted ==> Idle() && log == old(log) && Replaced(old(Now()), j, false, Now())
    {
      hide Inv, Without, Last, Rest, Calm, CloneOverflows, Replaced, More;
      Pointee(cells, roots, log, multiset{}, roots[j]);
      var id := roots[j].id;
      var v, script := cells[id].value, cells[id].script;
      CloneValue(id);
      if aborted { return; }
      MoreOf(old(cells), cells, id, v);
      CloneMoves(old(roots), roots, v, j);
      ghost var more := cells;
      var n := New(|v|, script);
      WithoutAppend(old(roots), Strong(n), j);
      ghost var made := cells;
      ReplaceBy(j, id);
      ClonedAway(old(Now()), j, more, made, Now());
    }

    /** Only `Weak`s are left: the value is moved, and they keep the memory. */
    method MoveAway(j: nat)
      requires Idle() && j < |roots| && roots[j].Strong? && roots[j].id < |cells| && cells[roots[j].id].strong == 1
      modifies this
      ensures Idle() && log == old(log) && Replaced(old(Now()), j, true, Now())
    {
      hide Inv, Without, Last, Rest, Calm, Replaced;
      Pointee(cells, roots, log, multiset{}, roots[j]);
      var id := roots[j].id;
      var v, script := cells[id].value, cells[id].script;
      MoveOutKeeps(cells, roots, log, j);
      roots := Without(roots, j) + v;
      cells := cells[id := MovedOut(cells[id])];
      LastOfConcat(Without(old(roots), j), v);
      var _ := New(|v|, script);
      MovedAway(old(Now()), j, Now());
    }

    /** `T::clone` of a value made of handles: each is cloned in turn. */
    method CloneValue(id: nat)
      requires Idle() && id < |cells| && cells[id].phase.Alive?
      requires forall h :: h in cells[id].value ==> !h.Unique?
      modifies this
      ensures aborted <==> CloneOverflows(old(cells), old(cells)[id].value)
      ensures !aborted ==> Idle() && log == old(log) && roots == old(roots) + old(cells)[id].value
      ensures !aborted ==> More(old(cells), cells, old(cells)[id].value)
    {
      hide Inv, CloneOverflows, More;
      var v := cells[id].value;
      MoreNone(cells);
      for i := 0 to |v|
        invariant Idle() && log == old(log) && roots == old(roots) + v[..i] && More(old(cells), cells, v[..i])
      {
        MoreOf(old(cells), cells, id, v[..i]);
        ValueField(cells, roots, log, id, i);
        ghost var was := cells;
        assert v[..i + 1] == v[..i] + [v[i]];
        CloneHandle(v[i]);
        if aborted {
          MoreOverflows(old(cells), was, v, i);
          return;
        }
        CascadeGraph(was, log, cells, log);
        MoreOne(old(cells), was, cells, v[..i], v[i]);
      }
      assert v[..|v|] == v;
      AllCounted(old(cells), cells, roots, log, v);
    }

    /** `*this = fresh`: the fresh handle, the program's last, takes the place of the one at `j`,
        which is dropped; other `Rc`s keep its value. */
    method ReplaceBy(j: nat, id: nat)
      requires Idle() && j < |roots| - 1 && roots[j] == Strong(id) && id < |cells| && cells[id].strong > 1
      modifies this
      ensures Idle() && log == old(log) && roots == Without(old(roots), j)
      ensures cells == old(cells)[id := old(cells)[id].(strong := old(cells)[id].strong - 1)]
    {
      hide Inv, Cascade, Drops, DropAborts;
      RootKeeps(cells, roots, log, j);
      roots := Without(roots, j);
      Drop(Strong(id));
    }

    /** Interior mutability: a field of an owned value and a handle of the program change places.
        This is how cycles come about. */
    method Swap(id: nat, f: nat, j: nat)
      requires Idle() && id < |cells| && Owned(cells[id].phase) && f < |cells[id].value| && j < |roots|
      modifies this
      ensures Idle() && log == old(log) && roots == old(roots)[j := old(cells)[id].value[f]]
      ensures var v := old(cells)[id].value[f := old(roots)[j]];
              cells == old(cells)[id := old(cells)[id].(value := v, pending := v)]
    {
      hide Inv;
      SwapKeeps(cells, roots, log, id, f, j);
      var a, v := cells[id].value[f], cells[id].value[f := roots[j]];
      cells := cells[id := cells[id].(value := v, pending := v)];
      roots := roots[j := a];
    }
  }

  lemma IdCounts(cells: seq<Cell>, roots: seq<Handle>, log: seq<nat>, id: nat)
    requires Inv(cells, roots, log, multiset{}) && id < |cells|
    ensures CellOk(cells[id], All(cells) + multiset(roots), id)
  {
    hide All, LogOk;
    assert All(cells) + multiset(roots) + multiset{} == All(cells) + multiset(roots);
  }

  lemma StrongIsCount(cells: seq<Cell>, roots: seq<Handle>, log: seq<nat>, id: nat)
    requires Inv(cells, roots, log, multiset{}) && id < |cells|
    ensures cells[id].strong == (All(cells) + multiset(roots))[Strong(id)]
  {
    IdCounts(cells, roots, log, id);
  }

  lemma ValueField(cells: seq<Cell>, roots: seq<Handle>, log: seq<nat>, id: nat, i: nat)
    requires Inv(cells, roots, log, multiset{}) && id < |cells| && Owned(cells[id].phase) && i < |cells[id].value|
    ensures var h := cells[id].value[i];
            h.id < |cells| && (h.Strong? ==> cells[h.id].phase.Alive?) && (h.Weak? ==> cells[h.id].weak > 0)
  {
    hide All, LogOk;
    assert CellOk(cells[id], All(cells) + multiset(roots) + multiset{}, id);
    FieldPointee(cells, roots, log, id, i);
  }

  // ---- cloning a value, handle by handle ----

  function Count(cells: seq<Cell>, h: Handle): nat {
    if h.id >= |cells| || h.Unique? then 0 else if h.Strong? then cells[h.id].strong else cells[h.id].weak
  }

  /** Some count has no room for the clones. */
  ghost predicate CloneOverflows(cells: seq<Cell>, v: seq<Handle>) {
    exists h :: h in v && Count(cells, h) + multiset(v)[h] > USIZE_MAX
  }

  /** A cell with the handles `v` to it counted besides. */
  function Counting(c: Cell, id: nat, v: seq<Handle>): Cell {
    c.(strong := c.strong + multiset(v)[Strong(id)], weak := c.weak + multiset(v)[Weak(id)])
  }

  ghost predicate More(a: seq<Cell>, b: seq<Cell>, v: seq<Handle>) {
    |a| == |b| && forall id :: 0 <= id < |a| ==> b[id] == Counting(a[id], id, v)
  }

  lemma MoreNone(a: seq<Cell>)
    ensures More(a, a, [])
  {
  }

  lemma MoreOf(a: seq<Cell>, b: seq<Cell>, id: nat, v: seq<Handle>)
    requires More(a, b, v) && id < |a|
    ensures |a| == |b| && b[id].phase == a[id].phase && b[id].value == a[id].value && b[id].pending == a[id].pending
    ensures b[id].script == a[id].script && b[id].strong >= a[id].strong
  {
  }

  lemma MoreOne(a: seq<Cell>, b: seq<Cell>, c: seq<Cell>, v: seq<Handle>, h: Handle)
    requires More(a, b, v) && !h.Unique? && h.id < |b|
    requires c == b[h.id := if h.Strong? then b[h.id].(strong := b[h.id].strong + 1) else b[h.id].(weak := b[h.id].weak + 1)]
    ensures More(a, c, v + [h])
  {
    assert multiset(v + [h]) == multiset(v) + multiset{h};
  }

  lemma MoreOverflows(a: seq<Cell>, b: seq<Cell>, v: seq<Handle>, i: nat)
    requires i < |v| && More(a, b, v[..i]) && AtMost(b, v[i])
    ensures CloneOverflows(a, v)
  {
    assert v == v[..i] + [v[i]] + v[i + 1..];
    assert multiset(v)[v[i]] >= multiset(v[..i])[v[i]] + 1;
    assert v[i] in v && Count(a, v[i]) + multiset(v)[v[i]] > USIZE_MAX;
  }

  lemma AllCounted(a: seq<Cell>, b: seq<Cell>, roots: seq<Handle>, log: seq<nat>, v: seq<Handle>)
    requires More(a, b, v) && Inv(b, roots, log, multiset{}) && forall h :: h in v ==> !h.Unique? && h in roots
    ensures !CloneOverflows(a, v)
  {
    hide Inv;
    forall h | h in v ensures Count(a, h) + multiset(v)[h] <= USIZE_MAX {
      Pointee(b, roots, log, multiset{}, h);
    }
  }

  // ---- `make_mut` into another allocation ----

  /** The handle at `j` gave way to a new one, to a new allocation of the same value and destructor,
      into which the value was moved, or cloned. */
  ghost predicate Replaced(a: Heap, j: nat, moved: bool, b: Heap) {
    && j < |a.roots| && a.roots[j].id < |a.cells| && |b.cells| == |a.cells| + 1
    && var id, n, v := a.roots[j].id, |a.cells|, a.cells[a.roots[j].id].value;
    && b.roots == Without(a.roots, j) + [Strong(n)]
    && b.cells[n] == Cell(1, 1, Alive, v, v, a.cells[id].script)
    && a.cells[id].weak > 0 && a.cells[id].strong > 0
    && if moved then b.cells[..n] == a.cells[id := MovedOut(a.cells[id])]
       else forall x :: 0 <= x < n ==>
              b.cells[x] == var c := Counting(a.cells[x], x, v); if x == id then c.(strong := c.strong - 1) else c
  }

  lemma MovedAway(a: Heap, j: nat, b: Heap)
    requires j < |a.roots| && a.roots[j].id < |a.cells| && a.cells[a.roots[j].id].weak > 0 && a.cells[a.roots[j].id].strong > 0
    requires var id, v := a.roots[j].id, a.cells[a.roots[j].id].value;
             b.cells == a.cells[id := MovedOut(a.cells[id])] + [Cell(1, 1, Alive, v, v, a.cells[id].script)]
             && b.roots == Without(a.roots, j) + [Strong(|a.cells|)]
    ensures Replaced(a, j, true, b)
  {
  }

  lemma ClonedAway(a: Heap, j: nat, more: seq<Cell>, made: seq<Cell>, b: Heap)
    requires j < |a.roots| && a.roots[j].id < |a.cells| && a.cells[a.roots[j].id].weak > 0 && a.cells[a.roots[j].id].strong > 1
    requires var id, v := a.roots[j].id, a.cells[a.roots[j].id].value;
             && More(a.cells, more, v) && made == more + [Cell(1, 1, Alive, v, v, a.cells[id].script)]
             && b.cells == made[id := made[id].(strong := made[id].strong - 1)]
             && b.roots == Without(a.roots, j) + [Strong(|a.cells|)]
    ensures Replaced(a, j, false, b)
  {
  }

  lemma StrongPointee(cells: seq<Cell>, roots: seq<Handle>, log: seq<nat>, j: nat)
    requires Inv(cells, roots, log, multiset{}) && j < |roots| && roots[j].Strong?
    ensures var id, hs := roots[j].id, All(cells) + multiset(roots);
            id < |cells| && cells[id].strong == hs[Strong(id)] > 0 && cells[id].weak == hs[Weak(id)] + 1 && cells[id].phase.Alive?
  {
    hide Inv, All;
    Pointee(cells, roots, log, multiset{}, roots[j]);
    IdCounts(cells, roots, log, roots[j].id);
  }

  lemma InPlace(roots: seq<Handle>, j: nat)
    requires j < |roots|
    ensures multiset(roots) == multiset(roots) - multiset{roots[j]} + multiset{roots[j]}
  {
    WithoutCounts(roots, j);
  }

  lemma AfterReplaced(a: Heap, j: nat, moved: bool, b: Heap)
    requires Inv(a.cells, a.roots, a.log, multiset{}) && Inv(b.cells, b.roots, b.log, multiset{}) && Replaced(a, j, moved, b)
    requires moved <==> a.cells[a.roots[j].id].strong == 1
    requires a.roots[j].Strong? && a.cells[a.roots[j].id].phase.Alive? && (moved ==> a.cells[a.roots[j].id].weak > 1)
    ensures |b.roots| == |a.roots| && |b.cells| == |a.cells| + 1 && a.roots[j].id < |a.cells|
    ensures var h, hs := b.roots[|b.roots| - 1], All(b.cells) + multiset(b.roots);
            h == Strong(|a.cells|) && hs[h] == 1 && hs[Weak(h.id)] == 0 && b.cells[h.id].value == a.cells[a.roots[j].id].value
    ensures multiset(b.roots) == multiset(a.roots) - multiset{a.roots[j]} + multiset{b.roots[|b.roots| - 1]}
    ensures b.cells[a.roots[j].id].phase == if moved then Dead else Alive
  {
    hide Inv, All;
    IdCounts(b.cells, b.roots, b.log, |a.cells|);
    WithoutCounts(a.roots, j);
    assert moved ==> b.cells[a.roots[j].id] == b.cells[..|a.cells|][a.roots[j].id];
  }

  lemma WithoutAppend(roots: seq<Handle>, h: Handle, j: nat)
    requires j < |roots|
    ensures Without(roots + [h], j) == Without(roots, j) + [h]
  {
  }

  lemma LastOfConcat(a: seq<Handle>, v: seq<Handle>)
    ensures Last(a + v, |v|) == v && Rest(a + v, |v|) == a
  {
  }

  lemma CloneMoves(was: seq<Handle>, now: seq<Handle>, v: seq<Handle>, j: nat)
    requires now == was + v && j < |was|
    ensures Last(now, |v|) == v && Rest(now, |v|) == was && was[j] == now[j]
  {
  }

  /** Nothing reachable or cyclic goes; without cycles everything else does. */
  ghost predicate Spares(a: seq<Cell>, b: seq<Cell>, roots: seq<Handle>, id: nat)
    requires id < |b|
  {
    && (Reachable(a, roots, id) ==> Owned(b[id].phase))
    && (OnCycle(a, id) ==> Owned(b[id].phase))
    && (Acyclic(a) ==> (Owned(b[id].phase) <==> Reachable(a, roots, id)))
  }

  lemma CascadeLog(a: seq<Cell>, la: seq<nat>, b: seq<Cell>, lb: seq<nat>)
    requires Cascade(a, la, b, lb, {})
    ensures la <= lb && |a| == |b|
  {
  }

  lemma OwnedNotLogged(cells: seq<Cell>, roots: seq<Handle>, log: seq<nat>, id: nat)
    requires Inv(cells, roots, log, multiset{}) && id < |cells| && Owned(cells[id].phase)
    ensures id !in log
  {
    hide Counts;
  }

  /** The memory of a value that is gone stays exactly as long as a `Weak` to it exists. */
  lemma Memory(cells: seq<Cell>, roots: seq<Handle>, log: seq<nat>, id: nat)
    requires Inv(cells, roots, log, multiset{}) && id < |cells|
    ensures cells[id].phase.Dead? ==> Weak(id) in All(cells) + multiset(roots)
    ensures cells[id].phase.Freed? ==> forall h :: h in All(cells) + multiset(roots) ==> h.id != id
  {
    hide All, LogOk;
    var hs := All(cells) + multiset(roots) + multiset{};
    assert hs == All(cells) + multiset(roots);
    assert CellOk(cells[id], hs, id);
    assert cells[id].phase.Freed? ==> Strong(id) !in hs && Weak(id) !in hs && Unique(id) !in hs;
  }

  lemma Unchanged(a: seq<Cell>, log: seq<nat>)
    ensures forall own :: Cascade(a, log, a, log, own)
  {
  }

  lemma Compose(a: seq<Cell>, la: seq<nat>, b: seq<Cell>, lb: seq<nat>, c: seq<Cell>, lc: seq<nat>, id: nat)
    requires Cascade(a, la, b, lb, {id}) && Cascade(b, lb, c, lc, {id})
    ensures Cascade(a, la, c, lc, {id})
  {
    CascadeTrans(a, la, b, lb, c, lc, {id});
  }

  lemma FieldPointee(cells: seq<Cell>, roots: seq<Handle>, log: seq<nat>, id: nat, i: nat)
    requires Inv(cells, roots, log, multiset{}) && id < |cells| && i < |cells[id].pending|
    ensures var h := cells[id].pending[i];
            h.id < |cells| && (h.Strong? ==> cells[h.id].phase.Alive?) && (h.Weak? ==> cells[h.id].weak > 0)
  {
    hide LogOk;
    var h := cells[id].pending[i];
    AllUpdate(cells, id, cells[id]);
    assert h in multiset(cells[id].pending);
    assert h in All(cells) + multiset(roots) + multiset{};
  }
}
