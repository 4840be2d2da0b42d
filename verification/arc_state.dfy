/** The state of one `ArcInner` allocation under release/acquire shared memory: the two counters
    with their full modification order, and what every thread has already observed.

    A counter is a sequence of writes. A plain load (and a failing compare-exchange) may read any
    write that is not older than what the thread has observed; a read-modify-write reads the newest. */
module ArcState {
  import opened Common

  const MAX_REFCOUNT: nat := 0x7FFF_FFFF_FFFF_FFFF

  /** `isize::MAX`: as many counts again are free above it before the sentinel. */
  lemma HalfTheRange()
    ensures MAX_REFCOUNT == USIZE_MAX / 2
  {
  }

  type Tid = nat
  type Hid = nat

  /** The wrapping increment and decrement of an atomic `usize`. */
  function WrapInc(n: nat): nat { (n + 1) % (USIZE_MAX + 1) }

  function WrapDec(n: nat): nat { if n == 0 then USIZE_MAX else n - 1 }

  /** Observations: how far into each modification order, and which events happened before. */
  datatype View = View(s: nat, w: nat, ev: set<nat>)

  predicate Leq(a: View, b: View) { a.s <= b.s && a.w <= b.w && a.ev <= b.ev }

  function Max(a: nat, b: nat): nat { if a < b then b else a }

  function Join(a: View, b: View): View { View(Max(a.s, b.s), Max(a.w, b.w), a.ev + b.ev) }

  /** The handle through which a thread acts on the allocation: one that shares the implicit weak
      reference (an `Arc`, a `UniqueArc`, the `&Weak` lent by `new_cyclic`), or a `Weak` handle. */
  datatype Via = Root(h: Hid) | Wk(h: Hid)

  /** One write to `strong`. `view` is what an acquire read of it passes on; `id` is its event.
      `live`, `via` and `id` are history variables: the `Arc` handles counted after the write,
      and the handle that made it. */
  datatype SEntry = SEntry(val: nat, view: View, live: set<Hid>, via: Via, id: nat)

  /** One write to `weak`, with the history variables: the `Weak` handles counted, whether the
      implicit weak reference is counted, and whether this write takes the lock. */
  datatype WEntry = WEntry(val: nat, view: View, live: set<Hid>, implicit: bool, locked: bool, via: Via, id: nat)

  /** What the strong side of the allocation is doing.
      Counted: `roots` are the `Arc` handles. UniqueB / CyclicB: the only root is the `UniqueArc`,
      or the handle lent by `new_cyclic`. Held: a thread took `strong` to 0 (or dropped the
      `UniqueArc`) and alone holds the implicit weak reference. Released: it was given up. */
  datatype Phase = Counted | UniqueB | CyclicB | Held(t: Tid, fenced: bool) | Released

  datatype Core = Core(
    strong: seq<SEntry>, weak: seq<WEntry>,
    cur: map<Tid, View>, acq: map<Tid, View>,
    phase: Phase, lock: Option<Tid>,
    roots: map<Hid, set<Tid>>, weaks: map<Hid, set<Tid>>, nextH: Hid,
    src: seq<Via>, uses: set<nat>, writes: set<nat>)

  function LastS(c: Core): SEntry
    requires |c.strong| > 0
  {
    c.strong[|c.strong| - 1]
  }

  function LastW(c: Core): WEntry
    requires |c.weak| > 0
  {
    c.weak[|c.weak| - 1]
  }

  function Live(c: Core): set<Hid> { if c.phase.Counted? then c.roots.Keys else {} }

  /** Thread `t` may act through handle `v`: it owns it or has it borrowed. */
  predicate MayUse(c: Core, v: Via, t: Tid) {
    match v
    case Root(h) => h in c.roots && t in c.roots[h]
    case Wk(h) => h in c.weaks && t in c.weaks[h]
  }

  predicate Knows(c: Core, t: Tid, e: nat) { t in c.cur && e in c.cur[t].ev }

  // ---- the primitive transformations every step is built from ----

  /** `t` performs an event through `via`, having observed `v`. */
  function Perform(c: Core, t: Tid, via: Via, v: View): Core {
    c.(src := c.src + [via], cur := c.cur[t := v.(ev := v.ev + {|c.src|})])
  }

  /** The view of `t` after a load of write `k` of `strong`. */
  function ReadS(c: Core, t: Tid, k: nat, acquire: bool): View
    requires t in c.cur && k < |c.strong|
  {
    var v := c.cur[t].(s := Max(c.cur[t].s, k));
    if acquire then Join(v, c.strong[k].view) else v
  }

  function ReadW(c: Core, t: Tid, k: nat, acquire: bool): View
    requires t in c.cur && k < |c.weak|
  {
    var v := c.cur[t].(w := Max(c.cur[t].w, k));
    if acquire then Join(v, c.weak[k].view) else v
  }

  /** Remember what a later acquire fence of `t` will pass on. */
  function Pend(c: Core, t: Tid, v: View): Core
    requires t in c.acq
  {
    c.(acq := c.acq[t := Join(c.acq[t], v)])
  }

  /** Append a write to `strong`: `v` is the view of `t` before it, `pass` what the write passes
      on besides, and `release` says whether it passes on the view of `t`. */
  function WriteS(c: Core, t: Tid, via: Via, v: View, pass: View, release: bool, val: nat, live: set<Hid>): Core {
    var n := |c.strong|;
    var mine := View(n, v.w, v.ev + {|c.src|});
    var msg := if release then Join(pass, mine) else pass;
    c.(strong := c.strong + [SEntry(val, msg, live, via, |c.src|)],
       src := c.src + [via], cur := c.cur[t := mine])
  }

  function WriteW(c: Core, t: Tid, via: Via, v: View, pass: View, release: bool, val: nat, live: set<Hid>,
                  implicit: bool, locked: bool): Core {
    var n := |c.weak|;
    var mine := View(v.s, n, v.ev + {|c.src|});
    var msg := if release then Join(pass, mine) else pass;
    c.(weak := c.weak + [WEntry(val, msg, live, implicit, locked, via, |c.src|)],
       src := c.src + [via], cur := c.cur[t := mine])
  }

  /** A read-modify-write reads the newest write and continues its release sequence. */
  function RmwS(c: Core, t: Tid, via: Via, acquire: bool, release: bool, val: nat, live: set<Hid>): Core
    requires |c.strong| > 0 && t in c.cur && t in c.acq
  {
    var was := LastS(c).view;
    var v := if acquire then Join(c.cur[t], was) else c.cur[t];
    WriteS(Pend(c, t, was), t, via, v, was, release, val, live)
  }

  function RmwW(c: Core, t: Tid, via: Via, acquire: bool, release: bool, val: nat, live: set<Hid>,
                implicit: bool, locked: bool): Core
    requires |c.weak| > 0 && t in c.cur && t in c.acq
  {
    var was := LastW(c).view;
    var v := if acquire then Join(c.cur[t], was) else c.cur[t];
    WriteW(Pend(c, t, was), t, via, v, was, release, val, live, implicit, locked)
  }

  /** A plain store starts a new release sequence. */
  function StoreS(c: Core, t: Tid, via: Via, val: nat, live: set<Hid>): Core
    requires t in c.cur
  {
    WriteS(c, t, via, c.cur[t], c.cur[t], true, val, live)
  }

  function StoreW(c: Core, t: Tid, via: Via, val: nat, live: set<Hid>, implicit: bool, locked: bool): Core
    requires t in c.cur
  {
    WriteW(c, t, via, c.cur[t], c.cur[t], true, val, live, implicit, locked)
  }
}
