/** `repeat` by doubling, and the clone loop behind `to_vec` with its drop guard. */
module Repeat {
  import opened Common
  import opened RawBuffer

  // ---- n-fold concatenation ----

  function Times<T>(s: seq<T>, n: nat): (r: seq<T>)
    ensures |r| == |s| * n
  {
    if n == 0 then [] else Times(s, n - 1) + s
  }

  lemma {:induction false} TimesAdd<T>(s: seq<T>, m: nat, n: nat)
    ensures Times(s, m + n) == Times(s, m) + Times(s, n)
  {
    if n > 0 { TimesAdd(s, m, n - 1); }
  }

  /** The first `|s| * m` elements of `n` copies are `m` copies. */
  lemma TimesPrefix<T>(s: seq<T>, m: nat, n: nat)
    requires m <= n
    ensures |s| * m <= |s| * n && Times(s, n)[..|s| * m] == Times(s, m)
  {
    TimesAdd(s, m, n - m);
  }

  /** Every copy holds the elements in order. */
  lemma {:induction false} TimesAt<T>(s: seq<T>, n: nat, i: nat, j: nat)
    requires i < n && j < |s|
    ensures |s| * i + j < |s| * n && Times(s, n)[|s| * i + j] == s[j]
  {
    Fits(|s|, i + 1, n);
    assert |s| * (i + 1) == |s| * i + |s|;
    if i < n - 1 {
      TimesAt(s, n - 1, i, j);
    }
  }

  // ---- powers of two, as shifts count them ----

  /** The doubling loop, with `p` copies made and `m` left of `n`, keeps `n / (2p) == m`. */
  predicate Halving(n: nat, p: nat, m: nat) { 1 <= p <= n && (2 * p) * m <= n < (2 * p) * m + 2 * p }

  lemma HalvingStep(n: nat, p: nat, m: nat)
    requires Halving(n, p, m) && m > 0
    ensures Halving(n, 2 * p, m / 2)
  {
    var q, h, b := 2 * p, m / 2, m % 2;
    Split(q, h, b);
    assert m == 2 * h + b;
    Fits(q, 1, m);
  }

  lemma HalvingBounds(n: nat, p: nat, m: nat)
    requires Halving(n, p, m)
    ensures p <= n && if m > 0 then 2 * p <= n else n - p < p
  {
    if m > 0 { Fits(2 * p, 1, m); }
  }

  lemma Split(q: nat, h: nat, b: nat)
    requires b < 2
    ensures q * (2 * h + b) == (2 * q) * h + if b == 0 then 0 else q
  {
    assert q * (2 * h + b) == q * (2 * h) + q * b;
  }

  method Repeat<T>(s: seq<T>, n: nat) returns (r: Option<Buffer<T>>)
    requires |s| <= USIZE_MAX && n <= USIZE_MAX
    ensures r.None? <==> |s| * n > USIZE_MAX
    ensures r.Some? ==> fresh(r.value) && fresh(r.value.mem) && r.value.Valid() && r.value.Contents() == Times(s, n)
    ensures r.Some? && n > 0 ==> r.value.mem.Length == |s| * n
  {
    hide Halving, Filled, Values, Times;
    if n == 0 {
      TimesStart(s);
      var empty := new Buffer<T>.WithCapacity(0);
      return Some(empty);
    }
    var capacity := |s| * n;
    if capacity > USIZE_MAX { return None; }
    var buf := new Buffer<T>.WithCapacity(capacity);
    Fits(|s|, 1, n);
    buf.Extend(s);
    TimesStart(s);
    ghost var p := Double(buf, s, n);
    CopyRest(buf, s, p, n);
    r := Some(buf);
  }

  lemma TimesStart<T>(s: seq<T>)
    ensures Times(s, 0) == [] && Times(s, 1) == s
  {
    assert Times(s, 0) == [];
  }

  lemma HalvingStart(n: nat)
    requires n > 0
    ensures Halving(n, 1, n / 2)
  {
  }

  lemma TimesTwice<T>(s: seq<T>, p: nat, n: nat)
    requires 2 * p <= n
    ensures |Times(s, p)| + |Times(s, p)| <= |s| * n && Times(s, 2 * p) == Times(s, p) + Times(s, p)
    ensures Times(s, p)[..|Times(s, p)|] == Times(s, p)
  {
    TimesAdd(s, p, p);
    Fits(|s|, 2 * p, n);
  }

  /** The doubling loop: `p` copies are made, more than half of all. */
  method Double<T>(buf: Buffer<T>, s: seq<T>, n: nat) returns (ghost p: nat)
    requires n > 0 && buf.Valid() && buf.mem.Length == |s| * n && buf.Contents() == s
    modifies buf, buf.mem
    ensures p <= n && n - p < p && buf.Valid() && buf.mem == old(buf.mem) && buf.Contents() == Times(s, p)
  {
    hide Halving, Filled, Values, Times;
    TimesStart(s);
    var m: nat := n / 2;
    HalvingStart(n);
    p := 1;
    while m > 0
      invariant buf.Valid() && buf.mem == old(buf.mem)
      invariant Halving(n, p, m) && buf.Contents() == Times(s, p)
      decreases m
    {
      HalvingBounds(n, p, m);
      HalvingStep(n, p, m);
      TimesTwice(s, p, n);
      Append(buf, buf.len);
      p := 2 * p;
      m := m / 2;
    }
    HalvingBounds(n, p, m);
  }

  /** The copies still missing come from the front of those made: fewer than those are missing. */
  method CopyRest<T>(buf: Buffer<T>, s: seq<T>, ghost p: nat, n: nat)
    requires p <= n && n - p < p && buf.Valid() && buf.mem.Length == |s| * n && buf.Contents() == Times(s, p)
    modifies buf, buf.mem
    ensures buf.Valid() && buf.mem == old(buf.mem) && buf.Contents() == Times(s, n)
  {
    hide Filled, Values, Times;
    var rem := buf.mem.Length - buf.len;
    assert |s| * n - |s| * p == |s| * (n - p);
    Fits(|s|, n - p, p);
    if rem > 0 {
      TimesPrefix(s, n - p, p);
      TimesAdd(s, p, n - p);
      Append(buf, rem);
    } else {
      AllCopied(s, p, n);
    }
  }

  /** When nothing remains to copy, the copies made are already all of them. */
  lemma AllCopied<T>(s: seq<T>, p: nat, n: nat)
    requires p <= n && |s| * (n - p) == 0
    ensures Times(s, n) == Times(s, p)
  {
    TimesAdd(s, p, n - p);
    assert |Times(s, n - p)| == 0;
  }

  lemma Fits(k: nat, a: nat, b: nat)
    requires a <= b
    ensures k * a <= k * b
  {
  }

  /** `extend(buf[..count])`: copy the first `count` elements behind the last. */
  method Append<T>(buf: Buffer<T>, count: nat)
    requires buf.Valid() && count <= buf.len && buf.len + count <= buf.mem.Length
    modifies buf, buf.mem
    ensures buf.Valid() && buf.mem == old(buf.mem)
    ensures buf.Contents() == old(buf.Contents()) + old(buf.Contents())[..count]
  {
    var n := buf.len;
    ghost var was := buf.mem[..n];
    buf.CopyNonoverlapping(0, n, count);
    FilledPrefix(was, count);
    FilledConcat(was, was[..count]);
    assert buf.mem[..n + count] == was + was[..count];
    buf.SetLen(n + count);
  }

  // ---- to_vec: a clone may panic ----

  /** What cloning the elements in order produces before the first clone that panics. */
  function Cloned<T>(s: seq<T>, clone: T -> Option<T>): (r: seq<T>)
    ensures |r| <= |s|
    ensures forall i :: 0 <= i < |r| ==> clone(s[i]) == Some(r[i])
    ensures |r| < |s| ==> clone(s[|r|]).None?
  {
    if s == [] then []
    else
      var r := Cloned(s[..|s| - 1], clone);
      if |r| == |s| - 1 && clone(s[|s| - 1]).Some? then r + [clone(s[|s| - 1]).value] else r
  }

  /** When a clone panics, the guard leaves the vector with exactly the clones made so far, so
      each of them is dropped once and no uninitialised slot is. */
  method ToVec<T>(s: seq<T>, clone: T -> Option<T>) returns (vec: Buffer<T>, panicked: bool)
    ensures fresh(vec) && fresh(vec.mem) && vec.Valid() && vec.mem.Length == |s|
    ensures vec.Contents() == Cloned(s, clone)
    ensures panicked <==> exists i :: 0 <= i < |s| && clone(s[i]).None?
  {
    hide Filled, Values, Cloned;
    vec := new Buffer<T>.WithCapacity(|s|);
    var numInit := 0;
    ClonedStart(s, clone);
    NoneFilled<T>();
    assert vec.mem[..0] == [];
    for i := 0 to |s|
      invariant fresh(vec) && fresh(vec.mem) && vec.Valid() && vec.len == 0 && vec.mem.Length == |s|
      invariant Filled(vec.mem[..i]) && |Cloned(s[..i], clone)| == i && Values(vec.mem[..i]) == Cloned(s[..i], clone)
    {
      numInit := i;
      var x := clone(s[i]);
      if x.None? {
        vec.SetLen(numInit);
        Stops(s, i, clone);
        return vec, true;
      }
      ClonedNext(s, i, clone);
      ghost var was := vec.mem[..i];
      vec.Write(i, x.value);
      FilledOne(x.value);
      FilledConcat(was, [Init(x.value)]);
      assert vec.mem[..i + 1] == was + [Init(x.value)];
    }
    ClonedAll(s, clone);
    assert s[..|s|] == s;
    vec.SetLen(|s|);
    panicked := false;
  }

  lemma ClonedStart<T>(s: seq<T>, clone: T -> Option<T>)
    ensures Cloned(s[..0], clone) == []
  {
  }

  lemma NoneFilled<T>()
    ensures Filled<T>([]) && Values<T>([]) == []
  {
  }

  lemma FilledOne<T>(x: T)
    ensures Filled([Init(x)]) && Values([Init(x)]) == [x]
  {
  }

  lemma ClonedNext<T>(s: seq<T>, i: nat, clone: T -> Option<T>)
    requires i < |s| && |Cloned(s[..i], clone)| == i && clone(s[i]).Some?
    ensures Cloned(s[..i + 1], clone) == Cloned(s[..i], clone) + [clone(s[i]).value]
  {
    assert s[..i + 1][..i] == s[..i];
  }

  lemma ClonedAll<T>(s: seq<T>, clone: T -> Option<T>)
    requires |Cloned(s[..|s|], clone)| == |s|
    ensures forall i :: 0 <= i < |s| ==> clone(s[i]).Some?
  {
    assert s[..|s|] == s;
  }

  lemma {:induction false} Stops<T>(s: seq<T>, i: nat, clone: T -> Option<T>)
    requires i < |s| && |Cloned(s[..i], clone)| == i && clone(s[i]).None?
    ensures Cloned(s, clone) == Cloned(s[..i], clone)
  {
    if i < |s| - 1 {
      assert s[..|s| - 1][..i] == s[..i];
      Stops(s[..|s| - 1], i, clone);
    }
  }
}
