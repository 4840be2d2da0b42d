/** A vector's allocation: slots that may be uninitialised, of which the first `len` are elements. */
module RawBuffer {

  datatype Slot<T> = Uninit | Init(value: T)

  class Buffer<T> {
    var mem: array<Slot<T>>
    var len: nat

    /** Every slot below `len` is initialised. */
    ghost predicate Valid()
      reads this, mem
    {
      len <= mem.Length && Filled(mem[..len])
    }

    ghost function Contents(): (s: seq<T>)
      requires Valid()
      reads this, mem
      ensures |s| == len
    {
      Values(mem[..len])
    }

    constructor WithCapacity(capacity: nat)
      ensures Valid() && fresh(mem) && mem.Length == capacity && Contents() == []
    {
      mem := new Slot<T>[capacity](_ => Uninit);
      len := 0;
    }

    /** Write one slot, in or past the current length. */
    method Write(at: nat, x: T)
      requires Valid() && at < mem.Length
      modifies mem
      ensures Valid() && mem[..] == old(mem[..])[at := Init(x)]
    {
      mem[at] := Init(x);
    }

    /** `ptr::copy_nonoverlapping` inside the allocation: both regions lie in it and are disjoint. */
    method CopyNonoverlapping(src: nat, dst: nat, count: nat)
      requires Valid() && src + count <= mem.Length && dst + count <= mem.Length
      requires src + count <= dst || dst + count <= src
      requires len <= dst
      modifies mem
      ensures Valid() && mem[dst..dst + count] == old(mem[src..src + count])
      ensures mem[..dst] == old(mem[..dst]) && mem[dst + count..] == old(mem[dst + count..])
    {
      forall k | 0 <= k < count {
        mem[dst + k] := mem[src + k];
      }
      assert mem[..len] == old(mem[..len]);
    }

    /** Write a slice, in or past the current length. */
    method WriteAll(at: nat, s: seq<T>)
      requires Valid() && len <= at && at + |s| <= mem.Length
      modifies mem
      ensures Valid() && mem[..at] == old(mem[..at]) && mem[at + |s|..] == old(mem[at + |s|..])
      ensures Filled(mem[at..at + |s|]) && Values(mem[at..at + |s|]) == s
    {
      for i := 0 to |s|
        invariant Valid() && mem[..at] == old(mem[..at]) && mem[at + |s|..] == old(mem[at + |s|..])
        invariant forall j :: 0 <= j < i ==> mem[at + j] == Init(s[j])
      {
        ghost var was := mem[..];
        Write(at + i, s[i]);
        assert mem[..at] == was[..at] && mem[at + |s|..] == was[at + |s|..];
      }
      var v := mem[at..at + |s|];
      assert forall j :: 0 <= j < |s| ==> v[j] == Init(s[j]);
    }

    /** `extend_from_slice` on an empty vector whose capacity suffices. */
    method Extend(s: seq<T>)
      requires Valid() && len == 0 && |s| <= mem.Length
      modifies this, mem
      ensures Valid() && mem == old(mem) && len == |s| && Contents() == s
      ensures Filled(mem[..|s|]) && Values(mem[..|s|]) == s
    {
      WriteAll(0, s);
      assert mem[0..|s|] == mem[..|s|];
      SetLen(|s|);
    }

    /** `set_len`: the caller must have initialised everything below the new length. */
    method SetLen(n: nat)
      requires Valid() && n <= mem.Length && Filled(mem[..n])
      modifies this`len
      ensures Valid() && len == n && Contents() == Values(mem[..n])
    {
      len := n;
    }
  }

  ghost predicate Filled<T>(s: seq<Slot<T>>) { forall i :: 0 <= i < |s| ==> s[i].Init? }

  function Values<T>(s: seq<Slot<T>>): (r: seq<T>)
    requires Filled(s)
    ensures |r| == |s| && forall i :: 0 <= i < |s| ==> r[i] == s[i].value
  {
    seq(|s|, i requires 0 <= i < |s| => s[i].value)
  }

  lemma FilledConcat<T>(a: seq<Slot<T>>, b: seq<Slot<T>>)
    requires Filled(a) && Filled(b)
    ensures Filled(a + b) && Values(a + b) == Values(a) + Values(b)
  {
  }

  lemma FilledPrefix<T>(a: seq<Slot<T>>, n: nat)
    requires Filled(a) && n <= |a|
    ensures Filled(a[..n]) && Values(a[..n]) == Values(a)[..n]
  {
  }
}
