/** The editing methods of `String`, on the bytes of its buffer. */
module StringEdit {
  import opened Common
  import opened Utf8
  import opened StringBuffer

  class Text {
    var vec: array<Byte>
    var len: nat

    /** The buffer holds well-formed UTF-8. */
    ghost predicate Ok()
      reads this, vec
    {
      len <= vec.Length && Valid(vec[..len])
    }

    /** The string. */
    ghost function Str(): seq<Scalar>
      requires Ok()
      reads this, vec
    {
      Chars(vec[..len])
    }

    constructor WithCapacity(capacity: nat)
      ensures Ok() && fresh(vec) && Str() == []
    {
      vec := new Byte[capacity](_ => 0);
      len := 0;
    }

    // ---- raw memory ----

    /** `Vec::reserve`: a larger buffer with the same contents. */
    method Reserve(additional: nat)
      requires len <= vec.Length
      modifies this`vec
      ensures len + additional <= vec.Length && vec[..len] == old(vec[..len]) && (vec == old(vec) || fresh(vec))
    {
      if vec.Length - len < additional {
        var was, n := vec, len;
        vec := new Byte[len + additional](i requires 0 <= i reads was => if i < was.Length then was[i] else 0);
      }
    }

    /** `ptr::copy`: the regions may overlap. */
    method Copy(src: nat, dst: nat, count: nat)
      requires src + count <= vec.Length && dst + count <= vec.Length
      modifies vec
      ensures vec[dst..dst + count] == old(vec[src..src + count])
      ensures vec[..dst] == old(vec[..dst]) && vec[dst + count..] == old(vec[dst + count..])
    {
      forall k | 0 <= k < count {
        vec[dst + k] := vec[src + k];
      }
    }

    method WriteAt(at: nat, bs: seq<Byte>)
      requires at + |bs| <= vec.Length
      modifies vec
      ensures vec[at..at + |bs|] == bs && vec[..at] == old(vec[..at]) && vec[at + |bs|..] == old(vec[at + |bs|..])
    {
      forall k | 0 <= k < |bs| {
        vec[at + k] := bs[k];
      }
    }

    // ---- one character ----

    method Push(ch: Scalar)
      requires Ok()
      modifies this, vec
      ensures Ok() && (vec == old(vec) || fresh(vec)) && Str() == old(Str()) + [ch]
    {
      hide Valid, Chars, EncodeChar;
      ghost var was := vec[..len];
      Reserve(LenUtf8(ch));
      WriteAt(len, EncodeChar(ch));
      len := len + LenUtf8(ch);
      assert vec[..len] == was + EncodeChar(ch);
      EncodeOne(ch);
      EncodingValid([ch]);
      ConcatValid(was, EncodeChar(ch));
    }

    /** Removes the last character. */
    method Pop() returns (r: Option<Scalar>)
      requires Ok()
      modifies this`len
      ensures Ok()
      ensures old(Str()) == [] ==> r == None && Str() == []
      ensures old(Str()) != [] ==> r == Some(old(Str())[|old(Str())| - 1]) && Str() == old(Str())[..|old(Str())| - 1]
    {
      hide Chars, EncodeChar, DecodeChar;
      ghost var cs := Str();
      EncodeDecode(vec[..len]);
      if len == 0 { return None; }
      var start := LastStart();
      var ch := DecodeChar(vec[start..len]).value;
      len := len - LenUtf8(ch);
      EncodingValid(cs[..|cs| - 1]);
      r := Some(ch);
    }

    /** `chars().rev().next()`: back over continuation bytes to the start of the last character. */
    method LastStart() returns (start: nat)
      requires Ok() && len > 0
      ensures Str() != [] && start < len && vec[..start] == Encode(Str()[..|Str()| - 1])
      ensures DecodeChar(vec[start..len]) == Some(Str()[|Str()| - 1]) && len - start == LenUtf8(Str()[|Str()| - 1])
    {
      hide Valid, Chars, EncodeChar, DecodeChar, Encode, IsTail;
      ghost var p := LastChar(vec[..len]);
      assert vec[..len][p..] == vec[p..len] && vec[..len][..p] == vec[..p];
      start := len - 1;
      while IsTail(vec[start])
        invariant p <= start < len
        decreases start
      {
        assert vec[..len][start] == vec[start];
        start := start - 1;
      }
      assert vec[..len][start] == vec[start];
    }

    /** Inserts a character at a byte position: panics exactly when that is not between characters. */
    method Insert(idx: nat, ch: Scalar) returns (panicked: bool)
      requires Ok()
      modifies this, vec
      ensures panicked <==> !(idx <= old(len) && IsBoundary(old(vec[..len]), idx))
      ensures panicked ==> vec == old(vec) && vec[..] == old(vec[..]) && len == old(len)
      ensures !panicked ==> Ok() && (vec == old(vec) || fresh(vec)) && Inserted(old(Str()), idx, ch, Str())
    {
      hide Valid, Chars, EncodeChar, Inserted, Encode, Decode;
      if !(idx == 0 || idx == len || (idx < len && !IsTail(vec[idx]))) { return true; }
      ghost var was := vec[..len];
      MakeRoom(idx, EncodeChar(ch));
      InsertedText(was, idx, ch);
      panicked := false;
    }

    /** Moves what lies behind `idx` up and writes the new bytes into the gap. */
    method MakeRoom(idx: nat, e: seq<Byte>)
      requires idx <= len <= vec.Length
      modifies this, vec
      ensures len == old(len) + |e| <= vec.Length && (vec == old(vec) || fresh(vec))
      ensures vec[..len] == old(vec[..len])[..idx] + e + old(vec[..len])[idx..]
    {
      ghost var was := vec[..len];
      var n := len;
      Reserve(|e|);
      ghost var m0 := vec[..];
      assert m0[..n] == vec[..n] && m0[idx..n] == vec[idx..n] && m0[..idx] == vec[..idx];
      Copy(idx, idx + |e|, n - idx);
      ghost var m1 := vec[..];
      assert m1[idx + |e|..n + |e|] == vec[idx + |e|..n + |e|] && m1[..idx] == vec[..idx] && m1[idx + |e|..] == vec[idx + |e|..];
      WriteAt(idx, e);
      len := n + |e|;
      ghost var m2 := vec[..];
      assert m2[idx..idx + |e|] == vec[idx..idx + |e|] && m2[..idx] == vec[..idx] && m2[idx + |e|..] == vec[idx + |e|..];
      InsertBytes(m0, m1, vec[..], was, idx, e);
    }

    /** Removes the character at a byte position: panics at the end or inside a character. */
    method Remove(idx: nat) returns (r: Option<Scalar>)
      requires Ok()
      modifies this, vec
      ensures r.None? <==> !(idx < old(len) && IsBoundary(old(vec[..len]), idx))
      ensures r.None? ==> vec == old(vec) && vec[..] == old(vec[..]) && len == old(len)
      ensures r.Some? ==> Ok() && vec == old(vec)
      ensures r.Some? ==> Removed(old(Str()), idx, r.value, Str())
    {
      hide Valid, Chars, EncodeChar, DecodeChar, Encode, Removed, Between;
      ghost var was := vec[..len];
      if idx >= len || !(idx == 0 || !IsTail(vec[idx])) { return None; }
      ghost var k := SplitAt(was, idx);
      assert was[idx..] == vec[idx..len];
      RemovedText(was, idx, k);
      var ch := DecodeChar(vec[idx..len]).value;
      var next := idx + LenUtf8(ch);
      Copy(next, idx, len - next);
      len := len - (next - idx);
      assert vec[..idx] == was[..idx] && vec[idx..len] == was[next..];
      assert vec[..len] == was[..idx] + was[next..];
      r := Some(ch);
    }

    // ---- retain ----

    /** Keeps the characters the predicate keeps. If the predicate panics, the string is left with
        the ones kept so far: it is well-formed whatever happens. */
    method Retain(f: (nat, Scalar) -> Verdict) returns (panicked: bool)
      requires Ok()
      modifies this`len, vec
      ensures Ok() && (panicked <==> Returned(f, old(Str())) < |old(Str())|)
      ensures Str() == Kept(f, old(Str())[..Returned(f, old(Str()))])
    {
      hide Valid, Chars, EncodeChar, DecodeChar, Retaining, Encode, Kept, Returned;
      var n := len;
      ghost var cs := Chars(vec[..n]);
      RetainStart(f, vec[..n]);
      var idx: nat, del: nat, calls: nat := 0, 0, 0;
      while idx < n
        invariant len == n <= vec.Length && Retaining(f, cs, vec[..n], idx, del, calls) && del <= idx <= n && calls <= |cs|
        invariant forall i :: 0 <= i < calls ==> !f(i, cs[i]).Panic?
      {
        ghost var was := vec[..n];
        RetainHead(f, cs, was, idx, del, calls);
        assert was[idx..] == vec[idx..n];
        var ch := DecodeChar(vec[idx..n]).value;
        SameBytes(was, idx, ch);
        assert was[idx..idx + LenUtf8(ch)] == vec[idx..idx + LenUtf8(ch)];
        var chLen := LenUtf8(ch);
        var verdict := f(calls, ch);
        if verdict.Panic? {
          len := idx - del;
          ReturnedAt(f, cs, calls);
          RetainEnd(f, cs, was, idx, del, calls);
          assert vec[..len] == was[..idx - del];
          return true;
        }
        if verdict.Keep? { WriteBack(idx, del, ch); }
        RetainStep(f, cs, was, vec[..n], idx, del, calls);
        if verdict.Delete? { del := del + chLen; }
        idx, calls := idx + chLen, calls + 1;
      }
      RetainDone(f, cs, vec[..n], idx, del, calls);
      RetainEnd(f, cs, vec[..n], idx, del, calls);
      len := idx - del;
      assert vec[..len] == vec[..n][..idx - del];
      panicked := false;
    }

    /** A kept character is encoded again, `del` bytes further down; nothing behind its own bytes
        is touched, though its own may be. */
    method WriteBack(idx: nat, del: nat, ch: Scalar)
      requires len <= vec.Length && del <= idx && idx + LenUtf8(ch) <= len && vec[idx..idx + LenUtf8(ch)] == EncodeChar(ch)
      modifies vec
      ensures vec[..len][..idx - del] == old(vec[..len])[..idx - del]
      ensures vec[..len][idx - del..idx - del + LenUtf8(ch)] == EncodeChar(ch)
      ensures vec[..len][idx + LenUtf8(ch)..] == old(vec[..len])[idx + LenUtf8(ch)..]
    {
      hide EncodeChar;
      ghost var was := vec[..len];
      if del > 0 {
        WriteAt(idx - del, EncodeChar(ch));
        Rewritten(vec[..], len, was, idx, del, EncodeChar(ch));
        assert vec[..][..len] == vec[..len];
      } else {
        assert was[idx..idx + LenUtf8(ch)] == vec[idx..idx + LenUtf8(ch)];
      }
    }

    // ---- remove_matches ----

    /** Removes what the searcher matched, moving the rest together with overlapping copies. */
    method RemoveMatches(ms: seq<(nat, nat)>)
      requires Ok() && MatchesOk(vec[..len], ms)
      modifies this`len, vec
      ensures Ok() && vec[..len] == ReplacedAll(old(vec[..len]), ms, [])
    {
      hide Valid, Compacted, ReplacedAll, MatchesOk;
      ghost var was := vec[..len];
      RejectionStart(was, ms);
      var rejections := Rejections(ms, len);
      var n: nat := 0;
      for i := 0 to |rejections|
        invariant n <= (if i < |rejections| then rejections[i].0 else |was|) <= |was| == len <= vec.Length
        invariant vec[..n] == Compacted(was, ms, i)
        invariant i < |rejections| ==> forall j :: rejections[i].0 <= j < len ==> vec[j] == was[j]
      {
        var (start, end) := rejections[i];
        CompactedStep(was, ms, i);
        var count := end - start;
        ghost var before := vec[..];
        if start != n { Copy(start, n, count); }
        CompactBytes(before, vec[..], was, n, start, end);
        n := n + count;
      }
      CompactedAll(was, ms);
      ReplacedAllValid(was, ms, []);
      len := n;
    }
  }

  /** Where the last character starts: its other bytes are continuation bytes. */
  lemma LastChar(bs: seq<Byte>) returns (p: nat)
    requires Valid(bs) && bs != []
    ensures Chars(bs) != [] && p < |bs| && bs[..p] == Encode(Chars(bs)[..|Chars(bs)| - 1])
    ensures DecodeChar(bs[p..]) == Some(Chars(bs)[|Chars(bs)| - 1]) && |bs| - p == LenUtf8(Chars(bs)[|Chars(bs)| - 1])
    ensures !IsTail(bs[p]) && forall j :: p < j < |bs| ==> IsTail(bs[j])
  {
    hide Valid, Chars, EncodeChar, DecodeChar;
    var cs := Chars(bs);
    EncodeDecode(bs);
    var last := |cs| - 1;
    EncodeAt(cs, last);
    EncodeCharTails(cs[last]);
    p := |Encode(cs[..last])|;
    assert cs[last + 1..] == [];
    assert bs == bs[..p] + EncodeChar(cs[last]);
    assert forall j :: p <= j < |bs| ==> bs[j] == EncodeChar(cs[last])[j - p];
  }

  lemma InsertBytes(m0: seq<Byte>, m1: seq<Byte>, m2: seq<Byte>, was: seq<Byte>, idx: nat, e: seq<Byte>)
    requires |m0| == |m1| == |m2| && idx <= |was| && |was| + |e| <= |m0| && m0[..|was|] == was
    requires m1[idx + |e|..idx + |e| + (|was| - idx)] == m0[idx..idx + (|was| - idx)] && m1[..idx] == m0[..idx]
    requires m2[idx..idx + |e|] == e && m2[..idx] == m1[..idx] && m2[idx + |e|..] == m1[idx + |e|..]
    ensures m2[..|was| + |e|] == was[..idx] + e + was[idx..]
  {
    var n, m := |was|, |e|;
    assert m2[..idx] == was[..idx] by { assert m0[..idx] == m0[..n][..idx]; }
    assert m2[idx + m..n + m] == was[idx..] by {
      assert m2[idx + m..n + m] == m2[idx + m..][..n - idx] == m1[idx + m..][..n - idx] == m1[idx + m..n + m];
      assert m0[idx..n] == m0[..n][idx..];
    }
    assert m2[..n + m] == m2[..idx] + m2[idx..idx + m] + m2[idx + m..n + m];
  }

  /** One move towards the front: the compacted part grows, what lies behind the moved piece stays. */
  lemma CompactBytes(m0: seq<Byte>, m1: seq<Byte>, was: seq<Byte>, n: nat, start: nat, end: nat)
    requires |m0| == |m1| && n <= start <= end <= |was| <= |m0| && forall j :: start <= j < |was| ==> m0[j] == was[j]
    requires if start == n then m1 == m0
             else m1[n..n + (end - start)] == m0[start..start + (end - start)] && m1[..n] == m0[..n]
                  && m1[n + (end - start)..] == m0[n + (end - start)..]
    ensures m1[..n + (end - start)] == m0[..n] + was[start..end]
    ensures forall j :: end <= j < |was| ==> m1[j] == was[j]
  {
    var count := end - start;
    assert m0[start..end] == was[start..end];
    assert m1[..n + count] == m1[..n] + m1[n..n + count];
    forall j | end <= j < |was| ensures m1[j] == was[j] {
      if start != n { assert m1[n + count..][j - n - count] == m0[n + count..][j - n - count]; }
    }
  }

  lemma RejectionStart(bs: seq<Byte>, ms: seq<(nat, nat)>)
    requires MatchesOk(bs, ms)
    ensures Compacted(bs, ms, 0) == [] && Rejections(ms, |bs|)[0].0 == 0
  {
  }

  lemma CompactedAll(bs: seq<Byte>, ms: seq<(nat, nat)>)
    requires MatchesOk(bs, ms)
    ensures Compacted(bs, ms, |ms| + 1) == ReplacedAll(bs, ms, []) && Valid([])
  {
  }

  /** `ch` was put between the characters, at byte position `idx`. */
  ghost predicate Inserted(cs: seq<Scalar>, idx: nat, ch: Scalar, now: seq<Scalar>) {
    exists k: nat :: Between(cs, idx, k) && now == cs[..k] + [ch] + cs[k..]
  }

  /** The character at byte position `idx` was `ch`, and is gone. */
  ghost predicate Removed(cs: seq<Scalar>, idx: nat, ch: Scalar, now: seq<Scalar>) {
    exists k: nat :: Between(cs, idx, k) && k < |cs| && cs[k] == ch && now == cs[..k] + cs[k + 1..]
  }

  lemma InsertedText(was: seq<Byte>, idx: nat, ch: Scalar)
    requires Valid(was) && idx <= |was| && IsBoundary(was, idx)
    ensures var now := was[..idx] + EncodeChar(ch) + was[idx..];
            Valid(now) && Inserted(Chars(was), idx, ch, Chars(now))
  {
    hide Valid, EncodeChar;
    var k := SplitAt(was, idx);
    var cs := Chars(was);
    EncodeOne(ch);
    EncodeConcat(cs[..k], [ch]);
    EncodeConcat(cs[..k] + [ch], cs[k..]);
    EncodingValid(cs[..k] + [ch] + cs[k..]);
    assert Between(cs, idx, k);
  }

  lemma RemovedText(was: seq<Byte>, idx: nat, k: nat)
    requires Valid(was) && idx < |was| && k < |Chars(was)|
    requires was[..idx] == Encode(Chars(was)[..k]) && was[idx..] == Encode(Chars(was)[k..])
    ensures var c := Chars(was)[k];
            DecodeChar(was[idx..]) == Some(c) && idx + LenUtf8(c) <= |was|
            && var now := was[..idx] + was[idx + LenUtf8(c)..];
               Valid(now) && Removed(Chars(was), idx, c, Chars(now))
  {
    hide Valid, EncodeChar, DecodeChar;
    var cs := Chars(was);
    var c, n := cs[k], LenUtf8(cs[k]);
    assert cs[k..][0] == c && cs[k..][1..] == cs[k + 1..];
    DecodeEncodeChar(c, Encode(cs[k + 1..]));
    assert was[idx..] == EncodeChar(c) + Encode(cs[k + 1..]);
    assert was[idx + n..] == was[idx..][n..] == Encode(cs[k + 1..]);
    EncodeConcat(cs[..k], cs[k + 1..]);
    EncodingValid(cs[..k] + cs[k + 1..]);
    assert Between(cs, idx, k);
  }

  lemma RetainStart(f: (nat, Scalar) -> Verdict, bytes: seq<Byte>)
    requires Valid(bytes)
    ensures Retaining(f, Chars(bytes), bytes, 0, 0, 0)
  {
    var cs := Chars(bytes);
    EncodeDecode(bytes);
    assert cs[..0] == [] && cs[0..] == cs;
  }

  lemma RetainEnd(f: (nat, Scalar) -> Verdict, cs: seq<Scalar>, bytes: seq<Byte>, idx: nat, del: nat, k: nat)
    requires Retaining(f, cs, bytes, idx, del, k)
    ensures del <= idx <= |bytes| && Valid(bytes[..idx - del]) && Chars(bytes[..idx - del]) == Kept(f, cs[..k])
  {
    EncodingValid(Kept(f, cs[..k]));
  }

  lemma EncodeNonEmpty(cs: seq<Scalar>)
    ensures cs != [] ==> |Encode(cs)| > 0
  {
    assert cs != [] ==> |EncodeChar(cs[0])| > 0;
  }

  lemma RetainDone(f: (nat, Scalar) -> Verdict, cs: seq<Scalar>, bytes: seq<Byte>, idx: nat, del: nat, k: nat)
    requires Retaining(f, cs, bytes, idx, del, k) && idx == |bytes| && forall i :: 0 <= i < k ==> !f(i, cs[i]).Panic?
    ensures k == |cs| && Returned(f, cs) == k && cs[..k] == cs
  {
    EncodeNonEmpty(cs[k..]);
    var n := Returned(f, cs);
  }

  /** The bytes after a kept character was written again further down. */
  lemma Rewritten(vec: seq<Byte>, n: nat, was: seq<Byte>, idx: nat, del: nat, e: seq<Byte>)
    requires 0 < del <= idx && idx + |e| <= n == |was| <= |vec|
    requires vec[idx - del..idx - del + |e|] == e && forall j :: 0 <= j < n && !(idx - del <= j < idx - del + |e|) ==> vec[j] == was[j]
    ensures var now := vec[..n]; now[..idx - del] == was[..idx - del] && now[idx - del..idx - del + |e|] == e && now[idx + |e|..] == was[idx + |e|..]
  {
  }

  lemma SameBytes(was: seq<Byte>, idx: nat, ch: Scalar)
    requires idx <= |was| && DecodeChar(was[idx..]) == Some(ch)
    ensures idx + LenUtf8(ch) <= |was| && was[idx..idx + LenUtf8(ch)] == EncodeChar(ch)
  {
    EncodeDecodeChar(was[idx..]);
    assert was[idx..][..LenUtf8(ch)] == was[idx..idx + LenUtf8(ch)];
  }

  // ---- the comment in retain ----

  /** The number of bytes deleted before character `k`. */
  function DeletedBefore(f: (nat, Scalar) -> Verdict, cs: seq<Scalar>, k: nat): nat
    requires k <= |cs|
  {
    if k == 0 then 0
    else DeletedBefore(f, cs, k - 1) + if f(k - 1, cs[k - 1]).Delete? then LenUtf8(cs[k - 1]) else 0
  }

  /** When a kept character is written back, the bytes deleted before it need not make room for
      it: deleting the `a` of "a" followed by U+20AC leaves one byte of room for three. */
  lemma RoomMayBeTooSmall()
    ensures exists f: (nat, Scalar) -> Verdict, cs: seq<Scalar>, k: nat ::
      k < |cs| && f(k, cs[k]).Keep? && 0 < DeletedBefore(f, cs, k) < LenUtf8(cs[k])
  {
    var f := (i: nat, c: Scalar) => if c == 0x61 then Delete else Keep;
    var cs: seq<Scalar> := [0x61, 0x20AC];
    assert DeletedBefore(f, cs, 0) == 0;
    assert DeletedBefore(f, cs, 1) == 1;
    assert 1 < |cs| && f(1, cs[1]).Keep? && 0 < DeletedBefore(f, cs, 1) < LenUtf8(cs[1]);
  }
}
