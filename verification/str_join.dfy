/** `join_generic_copy`: the exact length is computed first, then the pieces are copied into the
    spare capacity of one allocation. */
module StrJoin {
  import opened Common
  import opened RawBuffer

  /** The joined vector, or why there is none: the length overflowed; the first piece alone is longer
      than what was reserved, so that the room left for the others would be negative; or a later
      piece did not fit. */
  datatype Outcome<T> = Joined(vec: Buffer<T>) | LengthOverflow | FirstTooLong | OutOfRoom

  // ---- the reference ----

  function Join<T>(pieces: seq<seq<T>>, sep: seq<T>): seq<T> {
    if |pieces| == 0 then []
    else if |pieces| == 1 then pieces[0]
    else Join(pieces[..|pieces| - 1], sep) + sep + pieces[|pieces| - 1]
  }

  function Sum(lens: seq<nat>): nat { if lens == [] then 0 else Sum(lens[..|lens| - 1]) + lens[|lens| - 1] }

  function Lengths<T>(pieces: seq<seq<T>>): (r: seq<nat>)
    ensures |r| == |pieces|
  {
    seq(|pieces|, i requires 0 <= i < |pieces| => |pieces[i]|)
  }

  /** The length of the join, as computed from the lengths of the pieces. */
  function Total(lens: seq<nat>, sepLen: nat): nat { if lens == [] then 0 else sepLen * (|lens| - 1) + Sum(lens) }

  lemma {:induction false} JoinLength<T>(pieces: seq<seq<T>>, sep: seq<T>)
    ensures |Join(pieces, sep)| == Total(Lengths(pieces), |sep|)
  {
    var n := |pieces|;
    if n == 1 {
      assert Sum(Lengths(pieces)[..0]) == 0 && |sep| * 0 == 0;
    } else if n > 1 {
      var init := pieces[..n - 1];
      JoinLength(init, sep);
      assert Lengths(pieces)[..n - 1] == Lengths(init);
      assert |sep| * (n - 1) == |sep| * (n - 2) + |sep|;
    }
  }

  lemma {:induction false} JoinGrows<T>(pieces: seq<seq<T>>, sep: seq<T>, i: nat)
    requires 1 <= i <= |pieces|
    ensures |Join(pieces[..i], sep)| <= |Join(pieces, sep)|
    decreases |pieces| - i
  {
    if i == |pieces| {
      assert pieces[..i] == pieces;
    } else {
      JoinGrows(pieces, sep, i + 1);
      assert pieces[..i + 1][..i] == pieces[..i];
    }
  }

  /** Piece `x` stands at `at` in `r`, with `sep` in front of it. */
  ghost predicate StandsAt<T>(r: seq<T>, x: seq<T>, at: nat, sep: seq<T>) {
    at + |x| <= |r| && r[at..at + |x|] == x && |sep| <= at && r[at - |sep|..at] == sep
  }

  /** Piece `i` stands behind the pieces before it and one separator for each of them, the last of
      these in front of it. */
  lemma {:induction false} JoinAt<T>(pieces: seq<seq<T>>, sep: seq<T>, i: nat)
    requires i < |pieces|
    ensures StandsAt(Join(pieces, sep), pieces[i], |sep| * i + Sum(Lengths(pieces)[..i]), if i == 0 then [] else sep)
  {
    hide Join, Sum, Lengths, StandsAt;
    var n := |pieces|;
    if i < n - 1 {
      JoinAt(pieces[..n - 1], sep, i);
      assert Lengths(pieces[..n - 1])[..i] == Lengths(pieces)[..i] by { LengthsPrefix(pieces, n - 1, i); }
      JoinPrefix(pieces, sep);
      StandsLonger(Join(pieces[..n - 1], sep), Join(pieces, sep), pieces[i], |sep| * i + Sum(Lengths(pieces)[..i]), if i == 0 then [] else sep);
    } else if i > 0 {
      JoinLast(pieces, sep, i);
    } else {
      JoinFirst(pieces[0], sep);
      assert pieces == [pieces[0]];
    }
  }

  lemma LengthsPrefix<T>(pieces: seq<seq<T>>, n: nat, i: nat)
    requires i <= n <= |pieces|
    ensures Lengths(pieces[..n])[..i] == Lengths(pieces)[..i]
  {
  }

  lemma StandsLonger<T>(a: seq<T>, r: seq<T>, x: seq<T>, at: nat, sep: seq<T>)
    requires a <= r && StandsAt(a, x, at, sep)
    ensures StandsAt(r, x, at, sep)
  {
    assert r[at..at + |x|] == a[at..at + |x|] && r[at - |sep|..at] == a[at - |sep|..at];
  }

  lemma JoinPrefix<T>(pieces: seq<seq<T>>, sep: seq<T>)
    requires |pieces| > 1
    ensures Join(pieces[..|pieces| - 1], sep) <= Join(pieces, sep)
  {
  }

  lemma JoinFirst<T>(x: seq<T>, sep: seq<T>)
    ensures StandsAt(Join([x], sep), x, |sep| * 0 + Sum(Lengths([x])[..0]), [])
  {
    assert |sep| * 0 == 0 && Sum(Lengths([x])[..0]) == 0;
  }

  lemma JoinLast<T>(pieces: seq<seq<T>>, sep: seq<T>, i: nat)
    requires |pieces| == i + 1 > 1
    ensures StandsAt(Join(pieces, sep), pieces[i], |sep| * i + Sum(Lengths(pieces)[..i]), sep)
  {
    hide Sum, Lengths, StandsAt;
    LengthBefore(pieces, sep, i);
    StandsLast(Join(pieces[..i], sep), sep, pieces[i]);
  }

  lemma StandsLast<T>(front: seq<T>, sep: seq<T>, x: seq<T>)
    ensures StandsAt(front + sep + x, x, |front| + |sep|, sep)
  {
  }

  lemma LengthBefore<T>(pieces: seq<seq<T>>, sep: seq<T>, i: nat)
    requires 0 < i <= |pieces|
    ensures |Join(pieces[..i], sep)| + |sep| == |sep| * i + Sum(Lengths(pieces)[..i])
  {
    JoinLength(pieces[..i], sep);
    assert Lengths(pieces[..i]) == Lengths(pieces)[..i];
    assert |sep| * i == |sep| * (i - 1) + |sep|;
  }

  // ---- the length computation, with its overflow checks ----

  /** `sep_len.checked_mul(n)` and then a `checked_add` for every piece. */
  method ReservedLen(lens: seq<nat>, sepLen: nat) returns (overflow: bool, n: nat)
    requires lens != []
    ensures overflow <==> Total(lens, sepLen) > USIZE_MAX
    ensures !overflow ==> n == Total(lens, sepLen)
  {
    n := sepLen * (|lens| - 1);
    overflow := n > USIZE_MAX;
    for i := 0 to |lens|
      invariant overflow ==> sepLen * (|lens| - 1) + Sum(lens[..i]) > USIZE_MAX
      invariant !overflow ==> n == sepLen * (|lens| - 1) + Sum(lens[..i]) <= USIZE_MAX
    {
      assert lens[..i + 1][..i] == lens[..i];
      if !overflow {
        n := n + lens[i];
        overflow := n > USIZE_MAX;
      }
    }
    assert lens[..|lens|] == lens;
  }

  // ---- copying ----

  /** `copy_slice_and_advance!`: `split_at_mut` panics unless the piece fits into what is left of
      the target, which ends at `end`. */
  method CopySliceAndAdvance<T>(buf: Buffer<T>, at: nat, end: nat, bytes: seq<T>) returns (ok: bool)
    requires buf.Valid() && buf.len <= at <= end <= buf.mem.Length
    modifies buf.mem
    ensures buf.Valid() && (ok <==> at + |bytes| <= end)
    ensures buf.mem[..at] == old(buf.mem[..at]) && buf.mem[end..] == old(buf.mem[end..])
    ensures ok ==> Filled(buf.mem[at..at + |bytes|]) && Values(buf.mem[at..at + |bytes|]) == bytes
  {
    if |bytes| > end - at { return false; }
    ghost var was := buf.mem[..];
    buf.WriteAll(at, bytes);
    assert buf.mem[at + |bytes|..] == was[at + |bytes|..];
    assert buf.mem[end..] == buf.mem[at + |bytes|..][end - at - |bytes|..];
    ok := true;
  }

  /** One turn of the copying loop: the separator and a piece, behind what is there already. */
  method CopyPiece<T>(buf: Buffer<T>, at: nat, end: nat, sep: seq<T>, piece: seq<T>) returns (ok: bool)
    requires buf.Valid() && buf.len <= at <= end <= buf.mem.Length && Filled(buf.mem[..at])
    modifies buf.mem
    ensures buf.Valid() && buf.mem[end..] == old(buf.mem[end..]) && (ok <==> at + |sep| + |piece| <= end)
    ensures ok ==> Filled(buf.mem[..at + |sep| + |piece|])
    ensures ok ==> Values(buf.mem[..at + |sep| + |piece|]) == Values(old(buf.mem[..at])) + sep + piece
  {
    hide Filled, Values;
    ghost var was := buf.mem[..at];
    ok := CopySliceAndAdvance(buf, at, end, sep);
    if !ok { return; }
    ghost var mid, half := buf.mem[at..at + |sep|], buf.mem[..at + |sep|];
    assert half == was + mid;
    FilledConcat(was, mid);
    ok := CopySliceAndAdvance(buf, at + |sep|, end, piece);
    if !ok { return; }
    ghost var last := buf.mem[at + |sep|..at + |sep| + |piece|];
    assert buf.mem[..at + |sep| + |piece|] == half + last;
    FilledConcat(half, last);
  }

  /** The first piece, as copied, is longer than all that was reserved for the pieces as measured. */
  predicate FirstExceeds<T>(lens: seq<nat>, pieces: seq<seq<T>>, sep: seq<T>) {
    pieces != [] && |pieces[0]| > Total(lens, |sep|)
  }

  /** `join_generic_copy`. A `Borrow` may hand out other slices when they are copied (`pieces`) than
      when they are measured (`lens`). If the first piece still fits into what was reserved, nothing
      is written outside the reserved part, and the final length counts exactly the elements
      initialised: the join of what was copied, or no vector when that does not fit. If it does not,
      the source has no correct way on: the length of its copying region comes out below 0. */
  method JoinGenericCopy<T>(lens: seq<nat>, pieces: seq<seq<T>>, sep: seq<T>) returns (r: Outcome<T>)
    requires |lens| == |pieces|
    ensures r.LengthOverflow? <==> Total(lens, |sep|) > USIZE_MAX
    ensures r.FirstTooLong? <==> Total(lens, |sep|) <= USIZE_MAX && FirstExceeds(lens, pieces, sep)
    ensures r.OutOfRoom? <==> Total(lens, |sep|) <= USIZE_MAX && !FirstExceeds(lens, pieces, sep)
                              && |Join(pieces, sep)| > Total(lens, |sep|)
    ensures r.Joined? ==> fresh(r.vec) && r.vec.Valid() && r.vec.Contents() == Join(pieces, sep)
    ensures r.Joined? ==> r.vec.mem.Length == Total(lens, |sep|)
  {
    hide Filled, Values, Join, Total;
    JoinEnds(pieces, sep);
    if |pieces| == 0 {
      var none := new Buffer<T>.WithCapacity(0);
      return Joined(none);
    }
    var overflow, reserved := ReservedLen(lens, |sep|);
    if overflow { return LengthOverflow; }
    if |pieces[0]| > reserved { return FirstTooLong; }
    var buf := new Buffer<T>.WithCapacity(reserved);
    buf.Extend(pieces[0]);
    var at := buf.len;
    for i := 1 to |pieces|
      invariant fresh(buf) && fresh(buf.mem) && buf.Valid() && buf.mem.Length == reserved && buf.len <= at <= reserved
      invariant Filled(buf.mem[..at]) && Values(buf.mem[..at]) == Join(pieces[..i], sep)
    {
      JoinNext(pieces, sep, i);
      var ok := CopyPiece(buf, at, reserved, sep, pieces[i]);
      if !ok { return OutOfRoom; }
      at := at + |sep| + |pieces[i]|;
    }
    var remain := reserved - at;
    buf.SetLen(reserved - remain);
    r := Joined(buf);
  }

  lemma JoinEnds<T>(pieces: seq<seq<T>>, sep: seq<T>)
    ensures pieces == [] ==> Join(pieces, sep) == [] && Total(Lengths(pieces), |sep|) == 0
    ensures pieces == [] ==> forall lens: seq<nat> :: |lens| == 0 ==> Total(lens, |sep|) == 0
    ensures pieces != [] ==> Join(pieces[..1], sep) == pieces[0]
    ensures pieces[..|pieces|] == pieces
  {
  }

  lemma JoinNext<T>(pieces: seq<seq<T>>, sep: seq<T>, i: nat)
    requires 1 <= i < |pieces|
    ensures Join(pieces[..i + 1], sep) == Join(pieces[..i], sep) + sep + pieces[i]
    ensures |Join(pieces[..i], sep)| + |sep| + |pieces[i]| <= |Join(pieces, sep)|
  {
    assert pieces[..i + 1][..i] == pieces[..i];
    JoinGrows(pieces, sep, i + 1);
  }

  /** It can come to that only when a piece is copied longer than it was measured: one piece of
      length 0 when measured, and of length 1 when copied. */
  lemma FirstMayExceed<T>(x: T, sep: seq<T>)
    ensures Total([0], |sep|) == 0 && FirstExceeds([0], [[x]], sep)
  {
    assert Sum([0][..0]) == 0;
  }

  lemma MeasuredFits<T>(pieces: seq<seq<T>>, sep: seq<T>)
    ensures !FirstExceeds(Lengths(pieces), pieces, sep)
  {
    JoinLength(pieces, sep);
    if pieces != [] {
      JoinGrows(pieces, sep, 1);
      assert pieces[..1] == [pieces[0]];
    }
  }

  /** When the pieces are measured as they are copied, the join is made in one allocation of
      exactly its length, and nothing is left over. */
  method JoinPieces<T>(pieces: seq<seq<T>>, sep: seq<T>) returns (r: Outcome<T>)
    ensures r.LengthOverflow? <==> |Join(pieces, sep)| > USIZE_MAX
    ensures !r.OutOfRoom? && !r.FirstTooLong?
    ensures r.Joined? ==> fresh(r.vec) && r.vec.Valid() && r.vec.Contents() == Join(pieces, sep)
    ensures r.Joined? ==> r.vec.len == r.vec.mem.Length
  {
    JoinLength(pieces, sep);
    MeasuredFits(pieces, sep);
    r := JoinGenericCopy(Lengths(pieces), pieces, sep);
  }
}
