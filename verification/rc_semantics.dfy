/** What dropping a handle does, as a relation between heaps: the reference for the cascade. */
module RcSemantics {
  import opened Common
  import opened RcState
  import opened RcKeeps

  datatype Heap = Heap(cells: seq<Cell>, roots: seq<Handle>, log: seq<nat>)

  function Put(a: Heap, id: nat, c: Cell): Heap
    requires id < |a.cells|
  {
    a.(cells := a.cells[id := c])
  }

  /** One handle goes. */
  ghost predicate Drops(a: Heap, h: Handle, b: Heap)
    decreases Work(a.cells), 2
  {
    h.id < |a.cells| &&
    match h
    case Weak(id) => a.cells[id].weak > 0 && b == Put(a, id, WeakGone(a.cells[id]))
    case Strong(id) =>
      a.cells[id].strong > 0
      && if a.cells[id].strong == 1 then Destroys(a, id, b) else b == Put(a, id, a.cells[id].(strong := a.cells[id].strong - 1))
    case Unique(id) => Destroys(a, id, b)
  }

  function Begun(a: Heap, id: nat): Heap
    requires id < |a.cells|
  {
    Put(a, id, a.cells[id].(strong := 0, phase := Dropping)).(log := a.log + [id])
  }

  /** The destructor: its own code, then every field, then the owners' weak reference. */
  ghost predicate Destroys(a: Heap, id: nat, b: Heap)
    decreases Work(a.cells), 1
  {
    id < |a.cells| && Work(Begun(a, id).cells) <= Work(a.cells) &&
    exists m, n :: RunsScript(Begun(a, id), id, m) && Work(m.cells) <= Work(a.cells) && DropsFields(m, id, n) && Ends(n, id, b)
  }

  predicate Ends(a: Heap, id: nat, b: Heap) {
    id < |a.cells| && a.cells[id].weak > 0 && b == Put(a, id, ValueGone(a.cells[id]))
  }

  function NextAct(a: Heap, id: nat): Heap
    requires id < |a.cells| && a.cells[id].script != []
  {
    Put(a, id, a.cells[id].(script := a.cells[id].script[1..]))
  }

  ghost predicate RunsScript(a: Heap, id: nat, b: Heap)
    decreases Work(a.cells), 0
  {
    id < |a.cells| &&
    if a.cells[id].script == [] then b == a
    else
      var p := NextAct(a, id);
      Work(p.cells) < Work(a.cells) &&
      exists m :: Performs(p, a.cells[id].script[0], id, m) && Work(m.cells) <= Work(p.cells) && RunsScript(m, id, b)
  }

  /** An act on a field or a handle that is not there does nothing. */
  ghost predicate Performs(a: Heap, act: Act, id: nat, b: Heap)
    decreases Work(a.cells), 3
  {
    id < |a.cells| &&
    match act
    case UpgradeField(i) =>
      if i < |a.cells[id].pending| && a.cells[id].pending[i].Weak? then Upgrades(a, a.cells[id].pending[i].id, b) else b == a
    case CloneField(i) => if i < |a.cells[id].pending| then Clones(a, a.cells[id].pending[i], b) else b == a
    case DropOther(j) => if j < |a.roots| then Drops(a.(roots := Without(a.roots, j)), a.roots[j], b) else b == a
  }

  predicate Upgrades(a: Heap, w: nat, b: Heap) {
    w < |a.cells| && if a.cells[w].strong == 0 then b == a else Clones(a, Strong(w), b)
  }

  /** The count that a clone of `h` would raise has no room left. */
  predicate AtMost(cells: seq<Cell>, h: Handle) {
    h.id < |cells| && ((h.Strong? && cells[h.id].strong == USIZE_MAX) || (h.Weak? && cells[h.id].weak == USIZE_MAX))
  }

  predicate Clones(a: Heap, h: Handle, b: Heap) {
    h.id < |a.cells| && !AtMost(a.cells, h) &&
    match h
    case Strong(id) => b == Put(a, id, a.cells[id].(strong := a.cells[id].strong + 1)).(roots := a.roots + [h])
    case Weak(id) => b == Put(a, id, a.cells[id].(weak := a.cells[id].weak + 1)).(roots := a.roots + [h])
    case Unique(_) => b == a
  }

  function NextField(a: Heap, id: nat): Heap
    requires id < |a.cells| && a.cells[id].pending != []
  {
    Put(a, id, a.cells[id].(pending := a.cells[id].pending[1..]))
  }

  ghost predicate DropsFields(a: Heap, id: nat, b: Heap)
    decreases Work(a.cells), 0
  {
    id < |a.cells| &&
    if a.cells[id].pending == [] then b == a
    else
      var p := NextField(a, id);
      Work(p.cells) < Work(a.cells) &&
      exists m :: Drops(p, a.cells[id].pending[0], m) && Work(m.cells) <= Work(p.cells) && DropsFields(m, id, b)
  }

  // ---- or the process is aborted, by a clone or an upgrade that finds its count full ----

  ghost predicate DropAborts(a: Heap, h: Handle)
    decreases Work(a.cells), 2
  {
    h.id < |a.cells| && (h.Unique? || (h.Strong? && a.cells[h.id].strong == 1)) && DestroyAborts(a, h.id)
  }

  ghost predicate DestroyAborts(a: Heap, id: nat)
    decreases Work(a.cells), 1
  {
    id < |a.cells| && Work(Begun(a, id).cells) <= Work(a.cells) &&
    (ScriptAborts(Begun(a, id), id)
     || exists m :: RunsScript(Begun(a, id), id, m) && Work(m.cells) <= Work(a.cells) && FieldsAbort(m, id))
  }

  ghost predicate ScriptAborts(a: Heap, id: nat)
    decreases Work(a.cells), 0
  {
    id < |a.cells| && a.cells[id].script != [] &&
    var p := NextAct(a, id);
    Work(p.cells) < Work(a.cells) &&
    (ActAborts(p, a.cells[id].script[0], id)
     || exists m :: Performs(p, a.cells[id].script[0], id, m) && Work(m.cells) <= Work(p.cells) && ScriptAborts(m, id))
  }

  ghost predicate ActAborts(a: Heap, act: Act, id: nat)
    decreases Work(a.cells), 3
  {
    id < |a.cells| &&
    match act
    case UpgradeField(i) => i < |a.cells[id].pending| && a.cells[id].pending[i].Weak? && AtMost(a.cells, Strong(a.cells[id].pending[i].id))
    case CloneField(i) => i < |a.cells[id].pending| && AtMost(a.cells, a.cells[id].pending[i])
    case DropOther(j) => j < |a.roots| && DropAborts(a.(roots := Without(a.roots, j)), a.roots[j])
  }

  ghost predicate FieldsAbort(a: Heap, id: nat)
    decreases Work(a.cells), 0
  {
    id < |a.cells| && a.cells[id].pending != [] &&
    var p := NextField(a, id);
    Work(p.cells) < Work(a.cells) &&
    (DropAborts(p, a.cells[id].pending[0])
     || exists m :: Drops(p, a.cells[id].pending[0], m) && Work(m.cells) <= Work(p.cells) && FieldsAbort(m, id))
  }

  // ---- it leaves nothing open ----

  lemma {:induction false} DropsOne(a: Heap, h: Handle, b: Heap, c: Heap)
    requires Drops(a, h, b) && Drops(a, h, c)
    ensures b == c
    decreases Work(a.cells), 2
  {
    if h.Unique? || (h.Strong? && a.cells[h.id].strong == 1) { DestroysOne(a, h.id, b, c); }
  }

  lemma {:induction false} DestroysOne(a: Heap, id: nat, b: Heap, c: Heap)
    requires Destroys(a, id, b) && Destroys(a, id, c)
    ensures b == c
    decreases Work(a.cells), 1
  {
    var s := Begun(a, id);
    var m, n :| RunsScript(s, id, m) && Work(m.cells) <= Work(a.cells) && DropsFields(m, id, n) && Ends(n, id, b);
    var m', n' :| RunsScript(s, id, m') && Work(m'.cells) <= Work(a.cells) && DropsFields(m', id, n') && Ends(n', id, c);
    RunsScriptOne(s, id, m, m');
    DropsFieldsOne(m, id, n, n');
  }

  lemma {:induction false} RunsScriptOne(a: Heap, id: nat, b: Heap, c: Heap)
    requires RunsScript(a, id, b) && RunsScript(a, id, c)
    ensures b == c
    decreases Work(a.cells), 0
  {
    if a.cells[id].script != [] {
      var p, act := NextAct(a, id), a.cells[id].script[0];
      var m :| Performs(p, act, id, m) && Work(m.cells) <= Work(p.cells) && RunsScript(m, id, b);
      var m' :| Performs(p, act, id, m') && Work(m'.cells) <= Work(p.cells) && RunsScript(m', id, c);
      PerformsOne(p, act, id, m, m');
      RunsScriptOne(m, id, b, c);
    }
  }

  lemma {:induction false} DropsFieldsOne(a: Heap, id: nat, b: Heap, c: Heap)
    requires DropsFields(a, id, b) && DropsFields(a, id, c)
    ensures b == c
    decreases Work(a.cells), 0
  {
    if a.cells[id].pending != [] {
      var p, f := NextField(a, id), a.cells[id].pending[0];
      var m :| Drops(p, f, m) && Work(m.cells) <= Work(p.cells) && DropsFields(m, id, b);
      var m' :| Drops(p, f, m') && Work(m'.cells) <= Work(p.cells) && DropsFields(m', id, c);
      DropsOne(p, f, m, m');
      DropsFieldsOne(m, id, b, c);
    }
  }

  /** What comes to an end does not abort, and the other way round. */
  lemma {:induction false} DropsOrAborts(a: Heap, h: Handle, b: Heap)
    requires Drops(a, h, b)
    ensures !DropAborts(a, h)
    decreases Work(a.cells), 2
  {
    if h.Unique? || (h.Strong? && a.cells[h.id].strong == 1) { DestroysOrAborts(a, h.id, b); }
  }

  lemma {:induction false} DestroysOrAborts(a: Heap, id: nat, b: Heap)
    requires Destroys(a, id, b)
    ensures !DestroyAborts(a, id)
    decreases Work(a.cells), 1
  {
    hide RunsScript, ScriptAborts, DropsFields, FieldsAbort, Work;
    var s := Begun(a, id);
    var m, n :| RunsScript(s, id, m) && Work(m.cells) <= Work(a.cells) && DropsFields(m, id, n) && Ends(n, id, b);
    RunsOrAborts(s, id, m);
    FieldsOrAbort(m, id, n);
    forall x | RunsScript(s, id, x) ensures x == m { RunsScriptOne(s, id, m, x); }
  }

  lemma {:induction false} RunsOrAborts(a: Heap, id: nat, b: Heap)
    requires RunsScript(a, id, b)
    ensures !ScriptAborts(a, id)
    decreases Work(a.cells), 0
  {
    hide Work, Performs, ActAborts;
    if a.cells[id].script != [] {
      var p, act := NextAct(a, id), a.cells[id].script[0];
      var m :| Performs(p, act, id, m) && Work(m.cells) <= Work(p.cells) && RunsScript(m, id, b);
      PerformsOrAborts(p, act, id, m);
      RunsOrAborts(m, id, b);
      forall x | Performs(p, act, id, x) ensures x == m { PerformsOne(p, act, id, m, x); }
    }
  }

  lemma {:induction false} PerformsOne(a: Heap, act: Act, id: nat, b: Heap, c: Heap)
    requires Performs(a, act, id, b) && Performs(a, act, id, c)
    ensures b == c
    decreases Work(a.cells), 3
  {
    if act.DropOther? && act.i < |a.roots| {
      DropsOne(a.(roots := Without(a.roots, act.i)), a.roots[act.i], b, c);
    }
  }

  lemma {:induction false} PerformsOrAborts(a: Heap, act: Act, id: nat, b: Heap)
    requires Performs(a, act, id, b)
    ensures !ActAborts(a, act, id)
    decreases Work(a.cells), 3
  {
    if act.DropOther? && act.i < |a.roots| {
      DropsOrAborts(a.(roots := Without(a.roots, act.i)), a.roots[act.i], b);
    }
  }

  lemma {:induction false} FieldsOrAbort(a: Heap, id: nat, b: Heap)
    requires DropsFields(a, id, b)
    ensures !FieldsAbort(a, id)
    decreases Work(a.cells), 0
  {
    hide Work, Drops, DropAborts;
    if a.cells[id].pending != [] {
      var p, f := NextField(a, id), a.cells[id].pending[0];
      var m :| Drops(p, f, m) && Work(m.cells) <= Work(p.cells) && DropsFields(m, id, b);
      DropsOrAborts(p, f, m);
      FieldsOrAbort(m, id, b);
      forall x | Drops(p, f, x) ensures x == m { DropsOne(p, f, m, x); }
    }
  }

  // ---- steps, for loops that take them one at a time ----

  lemma ScriptStep(a: Heap, id: nat, m: Heap)
    requires id < |a.cells| && a.cells[id].script != [] && Work(NextAct(a, id).cells) < Work(a.cells)
    requires Performs(NextAct(a, id), a.cells[id].script[0], id, m) && Work(m.cells) <= Work(NextAct(a, id).cells)
    ensures forall b :: RunsScript(m, id, b) ==> RunsScript(a, id, b)
    ensures ScriptAborts(m, id) ==> ScriptAborts(a, id)
  {
    hide Work, Performs, ActAborts;
  }

  lemma FieldStep(a: Heap, id: nat, m: Heap)
    requires id < |a.cells| && a.cells[id].pending != [] && Work(NextField(a, id).cells) < Work(a.cells)
    requires Drops(NextField(a, id), a.cells[id].pending[0], m) && Work(m.cells) <= Work(NextField(a, id).cells)
    ensures forall b :: DropsFields(m, id, b) ==> DropsFields(a, id, b)
    ensures FieldsAbort(m, id) ==> FieldsAbort(a, id)
  {
    hide Work, Drops, DropAborts;
  }

  lemma ActAbortsNow(a: Heap, id: nat)
    requires id < |a.cells| && a.cells[id].script != [] && Work(NextAct(a, id).cells) < Work(a.cells)
    requires ActAborts(NextAct(a, id), a.cells[id].script[0], id)
    ensures ScriptAborts(a, id)
  {
    hide Work, ActAborts;
  }

  lemma FieldAbortsNow(a: Heap, id: nat)
    requires id < |a.cells| && a.cells[id].pending != [] && Work(NextField(a, id).cells) < Work(a.cells)
    requires DropAborts(NextField(a, id), a.cells[id].pending[0])
    ensures FieldsAbort(a, id)
  {
    hide Work, DropAborts;
  }

  lemma DestructionAborts(a: Heap, id: nat, m: Heap)
    requires id < |a.cells| && Work(Begun(a, id).cells) <= Work(a.cells)
    requires ScriptAborts(Begun(a, id), id) || (RunsScript(Begun(a, id), id, m) && Work(m.cells) <= Work(a.cells) && FieldsAbort(m, id))
    ensures DestroyAborts(a, id)
  {
    hide Work, ScriptAborts, RunsScript, FieldsAbort;
  }

  lemma NoneLeft(a: Heap, id: nat)
    requires id < |a.cells|
    ensures a.cells[id].script == [] ==> RunsScript(a, id, a)
    ensures a.cells[id].pending == [] ==> DropsFields(a, id, a)
  {
    hide Work;
  }

  lemma WholeDestruction(a: Heap, id: nat, m: Heap, n: Heap, b: Heap)
    requires id < |a.cells| && RunsScript(Begun(a, id), id, m) && DropsFields(m, id, n) && Ends(n, id, b)
    requires Work(Begun(a, id).cells) <= Work(a.cells) && Work(m.cells) <= Work(a.cells)
    ensures Destroys(a, id, b)
  {
    hide Work, RunsScript, DropsFields;
  }

  // ---- what a destructor's own code comes to ----

  /** The handles that the acts, none of which drops anything, give to the program, in order. */
  function Gifts(cells: seq<Cell>, fields: seq<Handle>, acts: seq<Act>): seq<Handle> {
    if acts == [] then []
    else Gift(cells, fields, acts[0]) + Gifts(cells, fields, acts[1..])
  }

  function Gift(cells: seq<Cell>, fields: seq<Handle>, act: Act): seq<Handle> {
    match act
    case UpgradeField(i) =>
      if i < |fields| && fields[i].Weak? && fields[i].id < |cells| && cells[fields[i].id].strong > 0 then [Strong(fields[i].id)] else []
    case CloneField(i) => if i < |fields| && !fields[i].Unique? then [fields[i]] else []
    case DropOther(_) => []
  }

  predicate OnlyKeeps(acts: seq<Act>) { forall i :: 0 <= i < |acts| ==> !acts[i].DropOther? }

  /** The same fields, and the same values alive. */
  predicate Alike(a: seq<Cell>, b: seq<Cell>) {
    |a| == |b| && forall id :: 0 <= id < |a| ==> b[id].pending == a[id].pending && (b[id].strong > 0 <==> a[id].strong > 0)
  }

  lemma {:induction false} GiftsAlike(a: seq<Cell>, b: seq<Cell>, fields: seq<Handle>, acts: seq<Act>)
    requires Alike(a, b)
    ensures Gifts(a, fields, acts) == Gifts(b, fields, acts)
  {
    if acts != [] { GiftsAlike(a, b, fields, acts[1..]); }
  }

  predicate FieldsAlive(a: Heap, id: nat) {
    id < |a.cells| && forall h :: h in a.cells[id].pending && h.Strong? ==> h.id < |a.cells| && a.cells[h.id].strong > 0
  }

  lemma OneGift(a: Heap, act: Act, id: nat, b: Heap)
    requires Performs(a, act, id, b) && !act.DropOther? && FieldsAlive(a, id)
    ensures b.roots == a.roots + Gift(a.cells, a.cells[id].pending, act) && b.log == a.log
    ensures Alike(a.cells, b.cells) && b.cells[id].script == a.cells[id].script
  {
  }

  lemma NextActAlike(a: Heap, id: nat)
    requires id < |a.cells| && a.cells[id].script != []
    ensures Alike(a.cells, NextAct(a, id).cells) && NextAct(a, id).cells[id].script == a.cells[id].script[1..]
  {
  }

  lemma AlikeFields(a: Heap, b: Heap, id: nat)
    requires Alike(a.cells, b.cells) && FieldsAlive(a, id)
    ensures FieldsAlive(b, id) && b.cells[id].pending == a.cells[id].pending
    ensures forall acts :: Gifts(b.cells, a.cells[id].pending, acts) == Gifts(a.cells, a.cells[id].pending, acts)
  {
    forall acts ensures Gifts(b.cells, a.cells[id].pending, acts) == Gifts(a.cells, a.cells[id].pending, acts) {
      GiftsAlike(a.cells, b.cells, a.cells[id].pending, acts);
    }
  }

  lemma AlikeTrans(a: seq<Cell>, b: seq<Cell>, c: seq<Cell>)
    requires Alike(a, b) && Alike(b, c)
    ensures Alike(a, c)
  {
  }

  lemma GiftsSplit(cells: seq<Cell>, fields: seq<Handle>, act: Act)
    ensures Gifts(cells, fields, [act]) == Gift(cells, fields, act)
  {
  }

  /** A destructor that drops nothing of others gives the program exactly these handles. */
  lemma {:induction false} KeepsAreGifts(a: Heap, id: nat, b: Heap)
    requires RunsScript(a, id, b) && OnlyKeeps(a.cells[id].script) && FieldsAlive(a, id)
    ensures b.roots == a.roots + Gifts(a.cells, a.cells[id].pending, a.cells[id].script) && b.log == a.log
    ensures Alike(a.cells, b.cells) && b.cells[id].script == []
    decreases |a.cells[id].script|
  {
    hide Work, Performs, Alike, FieldsAlive, Gift, NextAct;
    if a.cells[id].script == [] {
      AlikeSame(a.cells);
    } else {
      var p, act := NextAct(a, id), a.cells[id].script[0];
      var m :| Performs(p, act, id, m) && Work(m.cells) <= Work(p.cells) && RunsScript(m, id, b);
      NextActAlike(a, id);
      NextActRoots(a, id);
      AlikeFields(a, p, id);
      OneGift(p, act, id, m);
      AlikeTrans(a.cells, p.cells, m.cells);
      AlikeFields(a, m, id);
      GiftsSplit(a.cells, a.cells[id].pending, act);
      GiftsSplit(p.cells, a.cells[id].pending, act);
      KeepsAreGifts(m, id, b);
      AlikeTrans(a.cells, m.cells, b.cells);
    }
  }

  lemma AlikeSame(a: seq<Cell>)
    ensures Alike(a, a)
  {
  }

  lemma NextActRoots(a: Heap, id: nat)
    requires id < |a.cells| && a.cells[id].script != []
    ensures NextAct(a, id).roots == a.roots && NextAct(a, id).log == a.log
  {
  }

  /** A value whose destructor drops the program's other handle takes that one's value with it. */
  lemma DestructorReaches(a: Heap, b: Heap)
    requires a.cells == [Cell(1, 1, Alive, [], [], []), Cell(1, 1, Alive, [], [], [DropOther(0)])] && a.roots == [Strong(0)]
    requires Drops(a, Strong(1), b)
    ensures b == Heap([Cell(0, 0, Freed, [], [], []), Cell(0, 0, Freed, [], [], [])], [], a.log + [1, 0])
  {
    hide Work, Drops;
    DropsLast(a, 1, b);
    var s := Begun(a, 1);
    var m, n :| RunsScript(s, 1, m) && Work(m.cells) <= Work(a.cells) && DropsFields(m, 1, n) && Ends(n, 1, b);
    var p := NextAct(s, 1);
    var q :| Performs(p, DropOther(0), 1, q) && Work(q.cells) <= Work(p.cells) && RunsScript(q, 1, m);
    assert Without(p.roots, 0) == [];
    OtherGoes(p.(roots := []), q);
    assert q.cells[1] == Cell(0, 1, Dropping, [], [], []);
    assert m == q && n == q;
    assert a.log + [1] + [0] == a.log + [1, 0];
  }

  lemma DropsLast(a: Heap, id: nat, b: Heap)
    requires id < |a.cells| && a.cells[id].strong == 1 && Drops(a, Strong(id), b)
    ensures Destroys(a, id, b)
  {
    hide Work;
  }

  lemma OtherGoes(a: Heap, b: Heap)
    requires |a.cells| == 2 && a.cells[0] == Cell(1, 1, Alive, [], [], []) && Drops(a, Strong(0), b)
    ensures b == Heap(a.cells[0 := Cell(0, 0, Freed, [], [], [])], a.roots, a.log + [0])
  {
    hide Work;
    DropsLast(a, 0, b);
    var s := Begun(a, 0);
    var m, n :| RunsScript(s, 0, m) && Work(m.cells) <= Work(a.cells) && DropsFields(m, 0, n) && Ends(n, 0, b);
    assert m == s && n == s;
  }
}
