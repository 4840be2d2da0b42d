/** `sort_by_cached_key`: keys computed once, `(key, index)` pairs sorted by any correct unstable
    sort, and the slice permuted in place by following the stored indices. */
module SortByCachedKey {

  import opened Common

  const U32_MAX: nat := 0xFFFF_FFFF

  // ---- the order of keys, and of (key, index) pairs ----

  /** `Ord` on keys: total and transitive. Keys may compare equal without being the same. */
  ghost predicate TotalOrder<K(!new)>(leq: (K, K) -> bool) {
    && (forall a, b :: leq(a, b) || leq(b, a))
    && (forall a, b, c :: leq(a, b) && leq(b, c) ==> leq(a, c))
  }

  predicate PairLess<K>(leq: (K, K) -> bool, a: (K, nat), b: (K, nat)) {
    leq(a.0, b.0) && (leq(b.0, a.0) ==> a.1 < b.1)
  }

  ghost predicate Ascending<K>(leq: (K, K) -> bool, s: seq<(K, nat)>) {
    forall i, j :: 0 <= i < j < |s| ==> !PairLess(leq, s[j], s[i])
  }

  ghost predicate Strict<K>(leq: (K, K) -> bool, s: seq<(K, nat)>) {
    forall i, j :: 0 <= i < j < |s| ==> PairLess(leq, s[i], s[j])
  }

  /** `sort_unstable` on pairs: some ascending rearrangement. */
  ghost predicate Sorts<K(!new)>(leq: (K, K) -> bool, sort: seq<(K, nat)> -> seq<(K, nat)>) {
    forall s :: multiset(sort(s)) == multiset(s) && Ascending(leq, sort(s))
  }

  // ---- the reference: stable insertion sort by key ----

  function Insert<K, E>(leq: (K, K) -> bool, s: seq<(K, E)>, x: (K, E)): (r: seq<(K, E)>)
    ensures |r| == |s| + 1
  {
    if s == [] || leq(s[|s| - 1].0, x.0) then s + [x]
    else Insert(leq, s[..|s| - 1], x) + [s[|s| - 1]]
  }

  function StableSort<K, E>(leq: (K, K) -> bool, s: seq<(K, E)>): (r: seq<(K, E)>)
    ensures |r| == |s|
  {
    if s == [] then [] else Insert(leq, StableSort(leq, s[..|s| - 1]), s[|s| - 1])
  }

  ghost predicate KeySorted<K, E>(leq: (K, K) -> bool, s: seq<(K, E)>) {
    forall i, j :: 0 <= i < j < |s| ==> leq(s[i].0, s[j].0)
  }

  /** The elements of `s` whose key ties with `k`, in order. */
  function Ties<K, E>(leq: (K, K) -> bool, s: seq<(K, E)>, k: K): seq<(K, E)> {
    if s == [] then []
    else
      var x := s[|s| - 1];
      Ties(leq, s[..|s| - 1], k) + if leq(x.0, k) && leq(k, x.0) then [x] else []
  }

  ghost predicate KeysUpTo<K, E>(leq: (K, K) -> bool, s: seq<(K, E)>, k: K) {
    forall i :: 0 <= i < |s| ==> leq(s[i].0, k)
  }

  lemma {:induction false} InsertSorted<K(!new), E>(leq: (K, K) -> bool, s: seq<(K, E)>, x: (K, E))
    requires TotalOrder(leq) && KeySorted(leq, s)
    ensures KeySorted(leq, Insert(leq, s, x)) && multiset(Insert(leq, s, x)) == multiset(s) + multiset{x}
    ensures forall k :: KeysUpTo(leq, s, k) && leq(x.0, k) ==> KeysUpTo(leq, Insert(leq, s, x), k)
  {
    if s == [] || leq(s[|s| - 1].0, x.0) {
      LastIsLargest(leq, s, x);
    } else {
      var init, last := s[..|s| - 1], s[|s| - 1];
      assert s == init + [last];
      InsertSorted(leq, init, x);
      assert KeysUpTo(leq, Insert(leq, init, x), last.0);
    }
  }

  lemma LastIsLargest<K(!new), E>(leq: (K, K) -> bool, s: seq<(K, E)>, x: (K, E))
    requires TotalOrder(leq) && KeySorted(leq, s) && (s == [] || leq(s[|s| - 1].0, x.0))
    ensures KeySorted(leq, s + [x])
  {
    forall i | 0 <= i < |s| ensures leq(s[i].0, x.0) {
      assert leq(s[i].0, s[i].0) && (i < |s| - 1 ==> leq(s[i].0, s[|s| - 1].0));
    }
  }

  lemma {:induction false} InsertTies<K(!new), E>(leq: (K, K) -> bool, s: seq<(K, E)>, x: (K, E), k: K)
    requires TotalOrder(leq) && KeySorted(leq, s)
    ensures Ties(leq, Insert(leq, s, x), k) == Ties(leq, s + [x], k)
  {
    assert (s + [x])[..|s|] == s;
    if !(s == [] || leq(s[|s| - 1].0, x.0)) {
      var init, last := s[..|s| - 1], s[|s| - 1];
      var r := Insert(leq, init, x);
      assert (r + [last])[..|r|] == r && (init + [x])[..|init|] == init;
      InsertTies(leq, init, x, k);
    }
  }

  /** The reference is a stable sort: a rearrangement, in key order, that keeps every tie in order. */
  lemma {:induction false} StableSortIsStable<K(!new), E>(leq: (K, K) -> bool, s: seq<(K, E)>)
    requires TotalOrder(leq)
    ensures KeySorted(leq, StableSort(leq, s)) && multiset(StableSort(leq, s)) == multiset(s)
    ensures forall k :: Ties(leq, StableSort(leq, s), k) == Ties(leq, s, k)
  {
    if s != [] {
      var init, last := s[..|s| - 1], s[|s| - 1];
      assert s == init + [last];
      StableSortIsStable(leq, init);
      InsertSorted(leq, StableSort(leq, init), last);
      forall k ensures Ties(leq, StableSort(leq, s), k) == Ties(leq, s, k) {
        InsertTies(leq, StableSort(leq, init), last, k);
        var t := StableSort(leq, init);
        assert (t + [last])[..|t|] == t;
      }
    }
  }

  /** The reference only looks at keys: renaming the payloads commutes with it. */
  function Renamed<K, D, E>(s: seq<(K, D)>, g: D -> E): (r: seq<(K, E)>)
    ensures |r| == |s|
  {
    seq(|s|, i requires 0 <= i < |s| => (s[i].0, g(s[i].1)))
  }

  lemma {:induction false} InsertRenamed<K, D, E>(leq: (K, K) -> bool, s: seq<(K, D)>, x: (K, D), g: D -> E)
    ensures Renamed(Insert(leq, s, x), g) == Insert(leq, Renamed(s, g), (x.0, g(x.1)))
  {
    if !(s == [] || leq(s[|s| - 1].0, x.0)) {
      InsertRenamed(leq, s[..|s| - 1], x, g);
      assert Renamed(s, g)[..|s| - 1] == Renamed(s[..|s| - 1], g);
    }
  }

  lemma {:induction false} StableSortRenamed<K, D, E>(leq: (K, K) -> bool, s: seq<(K, D)>, g: D -> E)
    ensures Renamed(StableSort(leq, s), g) == StableSort(leq, Renamed(s, g))
  {
    if s != [] {
      var init, last := s[..|s| - 1], s[|s| - 1];
      StableSortRenamed(leq, init, g);
      InsertRenamed(leq, StableSort(leq, init), last, g);
      assert Renamed(s, g)[..|s| - 1] == Renamed(init, g);
    }
  }

  // ---- any correct sort of the indexed keys is the reference ----

  /** The keys with their positions. */
  function Indexed<K>(keys: seq<K>): (r: seq<(K, nat)>)
    ensures |r| == |keys|
  {
    seq(|keys|, i requires 0 <= i < |keys| => (keys[i], i))
  }

  lemma {:induction false} InsertStrict<K(!new)>(leq: (K, K) -> bool, s: seq<(K, nat)>, x: (K, nat))
    requires TotalOrder(leq) && Strict(leq, s) && (forall y :: y in s ==> y.1 < x.1)
    ensures Strict(leq, Insert(leq, s, x)) && (forall y :: y in Insert(leq, s, x) <==> y in s || y == x)
  {
    if s == [] || leq(s[|s| - 1].0, x.0) {
      forall i | 0 <= i < |s| ensures PairLess(leq, s[i], x) {
        assert s[i] in s && s[|s| - 1] in s;
        if i < |s| - 1 { assert PairLess(leq, s[i], s[|s| - 1]); }
      }
    } else {
      var init, last := s[..|s| - 1], s[|s| - 1];
      assert s == init + [last];
      InsertStrict(leq, init, x);
      var r := Insert(leq, init, x);
      forall i | 0 <= i < |r| ensures PairLess(leq, r[i], last) { assert r[i] in r; }
    }
  }

  lemma {:induction false} StableSortStrict<K(!new)>(leq: (K, K) -> bool, keys: seq<K>)
    requires TotalOrder(leq)
    ensures var r := StableSort(leq, Indexed(keys));
            Strict(leq, r) && forall y :: y in r <==> y in Indexed(keys)
  {
    if keys != [] {
      var n := |keys| - 1;
      StableSortStrict(leq, keys[..n]);
      assert Indexed(keys)[..n] == Indexed(keys[..n]);
      assert Indexed(keys) == Indexed(keys[..n]) + [(keys[n], n)];
      InsertStrict(leq, StableSort(leq, Indexed(keys[..n])), (keys[n], n));
    }
  }

  /** Two arrangements of the same pairs, one ascending and one strictly ascending, are equal. */
  lemma {:induction false} AscendingIsUnique<K(!new)>(leq: (K, K) -> bool, a: seq<(K, nat)>, b: seq<(K, nat)>)
    requires TotalOrder(leq) && Ascending(leq, a) && Strict(leq, b) && multiset(a) == multiset(b)
    ensures a == b
  {
    hide TotalOrder, Ascending, Strict;
    assert |multiset(a)| == |a| && |multiset(b)| == |b|;
    if a != [] {
      FirstIsLeast(leq, a, b);
      TailOrders(leq, a, b);
      TailBag(a);
      TailBag(b);
      AscendingIsUnique(leq, a[1..], b[1..]);
      assert a == [a[0]] + a[1..] && b == [b[0]] + b[1..];
    }
  }

  lemma FirstIsLeast<K(!new)>(leq: (K, K) -> bool, a: seq<(K, nat)>, b: seq<(K, nat)>)
    requires Ascending(leq, a) && Strict(leq, b) && multiset(a) == multiset(b) && a != [] && b != []
    ensures a[0] == b[0]
  {
    assert a[0] in multiset(a) && a[0] in b;
    assert b[0] in multiset(b) && b[0] in a;
  }

  lemma TailOrders<K(!new)>(leq: (K, K) -> bool, a: seq<(K, nat)>, b: seq<(K, nat)>)
    requires Ascending(leq, a) && Strict(leq, b) && a != [] && b != []
    ensures Ascending(leq, a[1..]) && Strict(leq, b[1..])
  {
  }

  lemma TailBag<E>(s: seq<E>)
    requires s != []
    ensures multiset(s[1..]) == multiset(s) - multiset{s[0]}
  {
    assert s == [s[0]] + s[1..];
  }

  // ---- and there is one ----

  function InsertPair<K>(leq: (K, K) -> bool, s: seq<(K, nat)>, x: (K, nat)): seq<(K, nat)> {
    if s == [] || !PairLess(leq, x, s[|s| - 1]) then s + [x]
    else InsertPair(leq, s[..|s| - 1], x) + [s[|s| - 1]]
  }

  function SortPairs<K>(leq: (K, K) -> bool, s: seq<(K, nat)>): seq<(K, nat)> {
    if s == [] then [] else InsertPair(leq, SortPairs(leq, s[..|s| - 1]), s[|s| - 1])
  }

  lemma NoneIsGreater<K(!new)>(leq: (K, K) -> bool, s: seq<(K, nat)>, x: (K, nat))
    requires TotalOrder(leq) && Ascending(leq, s) && s != [] && !PairLess(leq, x, s[|s| - 1])
    ensures forall i :: 0 <= i < |s| ==> !PairLess(leq, x, s[i])
  {
    forall i | 0 <= i < |s| ensures !PairLess(leq, x, s[i]) {
      assert i < |s| - 1 ==> !PairLess(leq, s[|s| - 1], s[i]);
    }
  }

  lemma LessIsNotGreater<K(!new)>(leq: (K, K) -> bool, x: (K, nat), y: (K, nat))
    requires TotalOrder(leq) && PairLess(leq, x, y)
    ensures !PairLess(leq, y, x)
  {
  }

  lemma {:induction false} InsertPairAscends<K(!new)>(leq: (K, K) -> bool, s: seq<(K, nat)>, x: (K, nat))
    requires TotalOrder(leq) && Ascending(leq, s)
    ensures Ascending(leq, InsertPair(leq, s, x)) && multiset(InsertPair(leq, s, x)) == multiset(s) + multiset{x}
  {
    hide PairLess, TotalOrder;
    if s == [] || !PairLess(leq, x, s[|s| - 1]) {
      if s != [] { NoneIsGreater(leq, s, x); }
    } else {
      var init, last := s[..|s| - 1], s[|s| - 1];
      assert s == init + [last];
      LessIsNotGreater(leq, x, last);
      InsertPairAscends(leq, init, x);
      var r := InsertPair(leq, init, x);
      forall i | 0 <= i < |r| ensures !PairLess(leq, last, r[i]) {
        assert r[i] in multiset(r);
        assert r[i] == x || r[i] in init;
      }
    }
  }

  lemma {:induction false} SortPairsAscends<K(!new)>(leq: (K, K) -> bool, s: seq<(K, nat)>)
    requires TotalOrder(leq)
    ensures Ascending(leq, SortPairs(leq, s)) && multiset(SortPairs(leq, s)) == multiset(s)
  {
    if s != [] {
      var init, last := s[..|s| - 1], s[|s| - 1];
      assert s == init + [last];
      SortPairsAscends(leq, init);
      InsertPairAscends(leq, SortPairs(leq, init), last);
    }
  }

  /** Whatever the order of the keys, ties among different keys included, pairs can be sorted. */
  lemma SortsExists<K(!new)>(leq: (K, K) -> bool)
    requires TotalOrder(leq)
    ensures Sorts(leq, s => SortPairs(leq, s))
  {
    forall s: seq<(K, nat)>
      ensures multiset(SortPairs(leq, s)) == multiset(s) && Ascending(leq, SortPairs(leq, s))
    {
      SortPairsAscends(leq, s);
    }
  }

  lemma SortedPairsAreStable<K(!new)>(leq: (K, K) -> bool, sort: seq<(K, nat)> -> seq<(K, nat)>, keys: seq<K>)
    requires TotalOrder(leq) && Sorts(leq, sort)
    ensures sort(Indexed(keys)) == StableSort(leq, Indexed(keys)) && |sort(Indexed(keys))| == |keys| && Strict(leq, sort(Indexed(keys)))
    ensures forall y :: y in sort(Indexed(keys)) ==> y.1 < |keys| && y.0 == keys[y.1]
  {
    StableSortStrict(leq, keys);
    StableSortIsStable(leq, Indexed(keys));
    AscendingIsUnique(leq, sort(Indexed(keys)), StableSort(leq, Indexed(keys)));
  }

  // ---- computing the keys ----

  /** The stateful key function applied to every element, once, in order: the keys, and the state
      it is left in. */
  function RunKeys<S, T, K>(f: (S, T) -> (K, S), st: S, s: seq<T>): (r: (seq<K>, S))
    ensures |r.0| == |s|
  {
    if s == [] then ([], st)
    else
      var (ks, mid) := RunKeys(f, st, s[..|s| - 1]);
      var (k, end) := f(mid, s[|s| - 1]);
      (ks + [k], end)
  }

  /** The elements of `s` in the stable order of `keys`. */
  function SortedBy<K, T>(leq: (K, K) -> bool, keys: seq<K>, s: seq<T>): (r: seq<T>)
    requires |keys| == |s|
    ensures |r| == |s|
  {
    var r := StableSort(leq, Zip(keys, s));
    seq(|s|, i requires 0 <= i < |s| => r[i].1)
  }

  function Zip<K, T>(keys: seq<K>, s: seq<T>): (r: seq<(K, T)>)
    requires |keys| == |s|
    ensures |r| == |s|
  {
    seq(|s|, i requires 0 <= i < |s| => (keys[i], s[i]))
  }

  // ---- following the stored indices ----

  /** Where the chain from `x` through the stored indices below `i` ends. */
  function Chase<K>(ind: seq<(K, nat)>, i: nat, x: nat): nat
    requires i <= |ind|
    decreases if x < i then i - x else 0
  {
    if x < i && x < ind[x].1 then Chase(ind, i, ind[x].1) else x
  }

  /** One more stored index: a chain that ended at `i` now goes on to where `i` was swapped to. */
  lemma {:induction false} ChaseStep<K>(ind: seq<(K, nat)>, i: nat, x: nat, e: (K, nat))
    requires i < |ind| && i <= e.1 && i <= Chase(ind, i, x)
    ensures Chase(ind[i := e], i + 1, x) == if Chase(ind, i, x) == i then e.1 else Chase(ind, i, x)
    decreases if x < i then i - x else 0
  {
    if x < i { ChaseStep(ind, i, ind[x].1, e); }
  }

  ghost predicate Injective(p: seq<nat>, n: nat) {
    |p| == n && (forall x :: 0 <= x < n ==> p[x] < n) && (forall x, y :: 0 <= x < y < n ==> p[x] != p[y])
  }

  /** The state of the permuting loop at `i`. `was` is the slice before it, `order` the sorted pairs
      and `loc[x]` the place where the element first at `x` is now. Places below `i` are final, and
      every element not yet final is found by following the stored indices from its first place. */
  ghost predicate Permuting<K, T>(was: seq<T>, order: seq<(K, nat)>, now: seq<T>, ind: seq<(K, nat)>, loc: seq<nat>, i: nat) {
    && |was| == |order| == |now| == |ind| && i <= |was| && Injective(loc, |was|)
    && (forall x :: 0 <= x < |was| ==> now[loc[x]] == was[x])
    && (forall j :: 0 <= j < |was| ==> order[j].1 < |was|)
    && (forall j :: 0 <= j < i ==> loc[order[j].1] == j)
    && ind[i..] == order[i..]
    && (forall x :: 0 <= x < |was| && loc[x] >= i ==> Chase(ind, i, x) == loc[x])
  }

  ghost predicate DistinctIndices<K>(order: seq<(K, nat)>) {
    forall i, j :: 0 <= i < j < |order| ==> order[i].1 != order[j].1
  }

  /** What the swap of a step does to the places. */
  ghost function Moved(loc: seq<nat>, i: nat, index: nat): seq<nat> {
    seq(|loc|, x requires 0 <= x < |loc| => if loc[x] == i then index else if loc[x] == index then i else loc[x])
  }

  lemma StartPermuting<K, T>(was: seq<T>, order: seq<(K, nat)>) returns (loc: seq<nat>)
    requires |order| == |was| && forall j :: 0 <= j < |order| ==> order[j].1 < |was|
    ensures Permuting(was, order, was, order, loc, 0)
  {
    loc := seq(|was|, (x: nat) => x);
  }

  lemma PermuteStep<K, T>(was: seq<T>, order: seq<(K, nat)>, now: seq<T>, ind: seq<(K, nat)>, loc: seq<nat>, i: nat)
    requires Permuting(was, order, now, ind, loc, i) && DistinctIndices(order) && i < |was|
    ensures i <= loc[order[i].1] < |was| && Chase(ind, i, ind[i].1) == loc[order[i].1] && |loc| == |was|
    ensures var index := loc[order[i].1];
            Permuting(was, order, now[i := now[index]][index := now[i]], ind[i := (ind[i].0, index)], Moved(loc, i, index), i + 1)
  {
    hide Chase, Moved;
    var index := PlaceOf(was, order, now, ind, loc, i);
    var e := (ind[i].0, index);
    PlacesMoved(was, order, now, ind, loc, i, index);
    ChainsMoved(was, order, now, ind, loc, i, e);
    assert ind[i := e][i + 1..] == order[i + 1..] by { assert ind[i..][1..] == ind[i + 1..]; }
  }

  /** The element wanted at `i` is not at a final place yet, and the stored index finds it. */
  lemma PlaceOf<K, T>(was: seq<T>, order: seq<(K, nat)>, now: seq<T>, ind: seq<(K, nat)>, loc: seq<nat>, i: nat) returns (index: nat)
    requires Permuting(was, order, now, ind, loc, i) && DistinctIndices(order) && i < |was|
    ensures index == loc[order[i].1] && i <= index < |was| && Chase(ind, i, ind[i].1) == index
  {
    hide Chase;
    index := loc[order[i].1];
    assert order[if index < i then index else i].1 < |was|;
    assert ind[i..][0] == order[i..][0];
  }

  lemma PlacesMoved<K, T>(was: seq<T>, order: seq<(K, nat)>, now: seq<T>, ind: seq<(K, nat)>, loc: seq<nat>, i: nat, index: nat)
    requires Permuting(was, order, now, ind, loc, i) && i < |was| && index == loc[order[i].1] >= i
    ensures var (l, n) := (Moved(loc, i, index), now[i := now[index]][index := now[i]]);
            && Injective(l, |was|) && (forall x :: 0 <= x < |was| ==> n[l[x]] == was[x])
            && (forall j :: 0 <= j <= i ==> l[order[j].1] == j)
  {
    hide Chase;
  }

  lemma ChainsMoved<K, T>(was: seq<T>, order: seq<(K, nat)>, now: seq<T>, ind: seq<(K, nat)>, loc: seq<nat>, i: nat, e: (K, nat))
    requires Permuting(was, order, now, ind, loc, i) && i < |was| && e.1 == loc[order[i].1] >= i
    ensures forall x :: 0 <= x < |was| && Moved(loc, i, e.1)[x] >= i + 1 ==> Chase(ind[i := e], i + 1, x) == Moved(loc, i, e.1)[x]
  {
    forall x | 0 <= x < |was| && Moved(loc, i, e.1)[x] >= i + 1 ensures Chase(ind[i := e], i + 1, x) == Moved(loc, i, e.1)[x] {
      ChaseStep(ind, i, x, e);
    }
  }

  lemma PermutedIsSorted<K(!new), T>(leq: (K, K) -> bool, keys: seq<K>, was: seq<T>, order: seq<(K, nat)>,
                                     now: seq<T>, ind: seq<(K, nat)>, loc: seq<nat>)
    requires |keys| == |was| && order == StableSort(leq, Indexed(keys))
    requires Permuting(was, order, now, ind, loc, |was|)
    ensures now == SortedBy(leq, keys, was)
  {
    if |was| > 0 {
      var g := (x: nat) => if x < |was| then was[x] else was[0];
      assert Renamed(Indexed(keys), g) == Zip(keys, was);
      StableSortRenamed(leq, Indexed(keys), g);
      forall j | 0 <= j < |was| ensures now[j] == SortedBy(leq, keys, was)[j] {
        assert loc[order[j].1] == j && now[loc[order[j].1]] == was[order[j].1];
        assert Renamed(order, g)[j].1 == was[order[j].1];
      }
    }
  }

  /** `slice::swap`. */
  method Swap<T>(a: array<T>, i: nat, j: nat)
    requires i < a.Length && j < a.Length
    modifies a
    ensures a[..] == old(a[..])[i := old(a[..])[j]][j := old(a[..])[i]]
  {
    a[i], a[j] := a[j], a[i];
  }

  /** The inner loop: through the stored indices to where the element wanted at `i` is now. Each one
      met below `i` lies further on, so the chain ends. */
  method Follow<K>(indices: array<(K, nat)>, i: nat) returns (index: nat)
    requires i < indices.Length && i <= Chase(indices[..], i, indices[i].1)
    ensures index == Chase(indices[..], i, indices[i].1)
  {
    index := indices[i].1;
    while index < i
      invariant Chase(indices[..], i, index) == Chase(indices[..], i, indices[i].1)
      decreases i - index
    {
      index := indices[index].1;
    }
  }

  // ---- the macro, at an index type whose largest value is `max` ----

  method SortByKey<S, T, K(!new)>(a: array<T>, f: (S, T) -> (K, S), st: S, leq: (K, K) -> bool,
                                  sort: seq<(K, nat)> -> seq<(K, nat)>, max: nat) returns (end: S)
    requires TotalOrder(leq) && Sorts(leq, sort) && a.Length <= max
    modifies a
    ensures a[..] == SortedBy(leq, RunKeys(f, st, old(a[..])).0, old(a[..]))
    ensures end == RunKeys(f, st, old(a[..])).1
  {
    hide Permuting, Sorts, TotalOrder, Strict, StableSort, SortedBy, RunKeys;
    ghost var was := a[..];
    var pairs: seq<(K, nat)>;
    pairs, end := CollectPairs(a, f, st, max);
    ghost var keys := RunKeys(f, st, was).0;
    SortedPairsAreStable(leq, sort, keys);
    ghost var order := sort(pairs);
    var sorted := sort(pairs);
    var indices := new (K, nat)[|sorted|](i requires 0 <= i < |sorted| => sorted[i]);
    assert indices[..] == order;
    DistinctFirst(leq, keys, order);
    ghost var loc := StartPermuting(was, order);
    for i := 0 to a.Length
      invariant indices.Length == a.Length && fresh(indices)
      invariant Permuting(was, order, a[..], indices[..], loc, i)
    {
      PermuteStep(was, order, a[..], indices[..], loc, i);
      var index := Follow(indices, i);
      ghost var ind := indices[..];
      indices[i] := (indices[i].0, index);
      assert indices[..] == ind[i := (ind[i].0, index)];
      Swap(a, i, index);
      loc := Moved(loc, i, index);
    }
    PermutedIsSorted(leq, keys, was, order, a[..], indices[..], loc);
  }

  /** The keys, computed in order and paired with their places cast to the index type, which wraps. */
  method CollectPairs<S, T, K>(a: array<T>, f: (S, T) -> (K, S), st: S, max: nat)
      returns (pairs: seq<(K, nat)>, end: S)
    requires a.Length <= max
    ensures pairs == Indexed(RunKeys(f, st, a[..]).0) && end == RunKeys(f, st, a[..]).1
  {
    hide RunKeys, Indexed;
    pairs, end := [], st;
    CollectStart(f, st, a[..]);
    assert a[..0] == a[..][..0];
    for i := 0 to a.Length
      invariant pairs == Indexed(RunKeys(f, st, a[..][..i]).0) && end == RunKeys(f, st, a[..][..i]).1
    {
      CollectNext(f, st, a[..], i);
      var (k, next) := f(end, a[i]);
      assert i % (max + 1) == i;
      pairs, end := pairs + [(k, i % (max + 1))], next;
    }
    assert a[..][..a.Length] == a[..];
  }

  lemma CollectStart<S, T, K>(f: (S, T) -> (K, S), st: S, s: seq<T>)
    ensures RunKeys(f, st, s[..0]) == ([], st) && Indexed<K>([]) == []
  {
  }

  lemma CollectNext<S, T, K>(f: (S, T) -> (K, S), st: S, s: seq<T>, i: nat)
    requires i < |s|
    ensures var (was, now) := (RunKeys(f, st, s[..i]), RunKeys(f, st, s[..i + 1]));
            Indexed(now.0) == Indexed(was.0) + [(f(was.1, s[i]).0, i)] && now.1 == f(was.1, s[i]).1
  {
    assert s[..i + 1][..i] == s[..i];
  }

  lemma DistinctFirst<K(!new)>(leq: (K, K) -> bool, keys: seq<K>, order: seq<(K, nat)>)
    requires Strict(leq, order) && |order| == |keys|
    requires forall y :: y in order ==> y.1 < |keys| && y.0 == keys[y.1]
    ensures DistinctIndices(order) && forall j :: 0 <= j < |order| ==> order[j].1 < |keys|
  {
    forall i, j | 0 <= i < j < |order| ensures order[i].1 != order[j].1 {
      assert order[i] in order && order[j] in order && PairLess(leq, order[i], order[j]);
    }
  }

  /** `sort_by_cached_key`. Whatever correct unstable sort is behind it and whichever index type is
      chosen (`smallPairs`: pairs with a 32-bit index are smaller), the slice ends in the stable
      order of the keys, and the key function has been called once per element, in order, or not
      at all on fewer than two elements. */
  method Sort<S, T, K(!new)>(a: array<T>, f: (S, T) -> (K, S), st: S, leq: (K, K) -> bool,
                             sort: seq<(K, nat)> -> seq<(K, nat)>, smallPairs: bool) returns (end: S)
    requires TotalOrder(leq) && Sorts(leq, sort) && a.Length <= USIZE_MAX
    modifies a
    ensures a[..] == SortedBy(leq, RunKeys(f, st, old(a[..])).0, old(a[..]))
    ensures end == if a.Length < 2 then st else RunKeys(f, st, old(a[..])).1
  {
    if a.Length < 2 {
      ShortIsSorted(leq, RunKeys(f, st, a[..]).0, a[..]);
      return st;
    }
    if smallPairs && a.Length <= U32_MAX {
      end := SortByKey(a, f, st, leq, sort, U32_MAX);
    } else {
      end := SortByKey(a, f, st, leq, sort, USIZE_MAX);
    }
  }

  lemma ShortIsSorted<K, T>(leq: (K, K) -> bool, keys: seq<K>, s: seq<T>)
    requires |keys| == |s| < 2
    ensures SortedBy(leq, keys, s) == s
  {
    if |s| == 1 {
      var z := Zip(keys, s);
      assert z[..0] == [];
      assert StableSort(leq, z[..0]) == [];
      assert StableSort(leq, z) == [z[0]];
    }
  }

  /** The result is a stable sort of the elements by the keys: ordered, a rearrangement, and with
      tied elements in their first order. */
  lemma SortedByIsStable<K(!new), T>(leq: (K, K) -> bool, keys: seq<K>, s: seq<T>)
    requires TotalOrder(leq) && |keys| == |s|
    ensures exists z: seq<(K, T)> :: |z| == |s| && multiset(z) == multiset(Zip(keys, s)) && KeySorted(leq, z)
              && (forall k :: Ties(leq, z, k) == Ties(leq, Zip(keys, s), k))
              && (forall i :: 0 <= i < |s| ==> z[i].1 == SortedBy(leq, keys, s)[i])
  {
    StableSortIsStable(leq, Zip(keys, s));
    var z := StableSort(leq, Zip(keys, s));
    assert forall i :: 0 <= i < |s| ==> z[i].1 == SortedBy(leq, keys, s)[i];
  }
}
