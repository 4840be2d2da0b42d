/** `str::replace`: the general copy, and the byte-for-byte fast path for one ASCII character. */
module StrReplace {
  import opened Common
  import opened Utf8
  import opened StringBuffer
  import Joining = StrJoin

  /** What a pattern says about itself: `Pattern::as_utf8_pattern`. */
  datatype Pattern = StringPattern(bytes: seq<Byte>) | CharPattern(c: Scalar) | OtherPattern

  /** The one ASCII byte a pattern consists of, if it does. */
  function AsciiByte(pat: Pattern): Option<Byte> {
    match pat
    case StringPattern(bytes) => if |bytes| == 1 then Some(bytes[0]) else None
    case CharPattern(c) => if c < 0x80 then Some(c) else None
    case OtherPattern => None
  }

  /** Every place where byte `b` stands among the first `k`. */
  function Occurrences(bs: seq<Byte>, b: Byte, k: nat): seq<(nat, nat)>
    requires k <= |bs|
  {
    if k == 0 then []
    else Occurrences(bs, b, k - 1) + if bs[k - 1] == b then [(k - 1, k)] else []
  }

  /** `replace_ascii`. */
  function ReplaceAscii(bs: seq<Byte>, b: Byte, t: Byte): (r: seq<Byte>)
    ensures |r| == |bs|
  {
    seq(|bs|, i requires 0 <= i < |bs| => if bs[i] == b then t else bs[i])
  }

  // ---- the matches of an ASCII byte are what a searcher may report ----

  lemma {:induction false} OccurrencesIn(bs: seq<Byte>, b: Byte, k: nat)
    requires k <= |bs|
    ensures forall m :: m in Occurrences(bs, b, k) ==> m.0 < k && m.1 == m.0 + 1 && bs[m.0] == b
    ensures forall i :: 0 <= i < |Occurrences(bs, b, k)| - 1 ==> Occurrences(bs, b, k)[i].1 <= Occurrences(bs, b, k)[i + 1].0
  {
    if k > 0 {
      var o := Occurrences(bs, b, k - 1);
      OccurrencesIn(bs, b, k - 1);
      if o != [] { assert o[|o| - 1] in o; }
    }
  }

  /** Behind an ASCII byte a character starts. */
  lemma AsciiEnds(bs: seq<Byte>, i: nat)
    requires Valid(bs) && i < |bs| && bs[i] < 0x80
    ensures IsBoundary(bs, i) && IsBoundary(bs, i + 1)
  {
    hide Valid;
    var k := SplitAt(bs, i);
    var cs := Chars(bs);
    EncodeDecode(bs);
    EncodeAt(cs, k);
    assert bs[i] == EncodeChar(cs[k])[0];
    assert LenUtf8(cs[k]) == 1;
    assert Between(cs, i + 1, k + 1);
    BoundaryIffBetween(cs, i + 1);
  }

  lemma OccurrencesOk(bs: seq<Byte>, b: Byte)
    requires Valid(bs) && b < 0x80
    ensures MatchesOk(bs, Occurrences(bs, b, |bs|))
  {
    hide Valid, IsBoundary;
    var ms := Occurrences(bs, b, |bs|);
    OccurrencesIn(bs, b, |bs|);
    forall i | 0 <= i < |ms| ensures ms[i].0 <= ms[i].1 <= |bs| && IsBoundary(bs, ms[i].0) && IsBoundary(bs, ms[i].1) {
      assert ms[i] in ms;
      AsciiEnds(bs, ms[i].0);
    }
  }

  // ---- the fast path is the general one ----

  lemma {:induction false} OccurrencesPrefix(bs: seq<Byte>, b: Byte, k: nat, n: nat)
    requires k <= n <= |bs|
    ensures Occurrences(bs, b, k) <= Occurrences(bs, b, n)
  {
    if k < n { OccurrencesPrefix(bs, b, k, n - 1); }
  }

  lemma ReplaceAsciiOneMore(bs: seq<Byte>, b: Byte, t: Byte, k: nat)
    requires 0 < k <= |bs|
    ensures ReplaceAscii(bs, b, t)[..k] == ReplaceAscii(bs, b, t)[..k - 1] + [if bs[k - 1] == b then t else bs[k - 1]]
  {
  }

  lemma ReplacedOneMore(bs: seq<Byte>, ms: seq<(nat, nat)>, to: seq<Byte>, n: nat)
    requires MatchesOk(bs, ms) && n < |ms|
    ensures FrontAt(ms, n) <= ms[n].0 <= |bs|
    ensures Replaced(bs, ms, to, n + 1) == Replaced(bs, ms, to, n) + bs[FrontAt(ms, n)..ms[n].0] + to
  {
    MatchAt(bs, ms, n);
  }

  lemma {:induction false} ReplaceAsciiPrefix(bs: seq<Byte>, b: Byte, t: Byte, k: nat)
    requires k <= |bs| && MatchesOk(bs, Occurrences(bs, b, |bs|))
    ensures var ms, n := Occurrences(bs, b, |bs|), |Occurrences(bs, b, k)|;
            n <= |ms| && FrontAt(ms, n) <= k && Replaced(bs, ms, [t], n) + bs[FrontAt(ms, n)..k] == ReplaceAscii(bs, b, t)[..k]
  {
    hide MatchesOk;
    var ms, o := Occurrences(bs, b, |bs|), Occurrences(bs, b, k);
    OccurrencesPrefix(bs, b, k, |bs|);
    if k > 0 {
      hide Replaced, ReplaceAscii;
      ReplaceAsciiPrefix(bs, b, t, k - 1);
      var n := |Occurrences(bs, b, k - 1)|;
      var front := FrontAt(ms, n);
      ReplaceAsciiOneMore(bs, b, t, k);
      if bs[k - 1] == b {
        assert ms[n] == o[n] == (k - 1, k);
        ReplacedOneMore(bs, ms, [t], n);
        assert bs[k..k] == [];
      } else {
        assert bs[front..k] == bs[front..k - 1] + [bs[k - 1]];
      }
    }
  }

  /** Mapping bytes replaces every occurrence, as the general path would. */
  lemma ReplaceAsciiIsReplace(bs: seq<Byte>, b: Byte, t: Byte)
    requires Valid(bs) && b < 0x80
    ensures MatchesOk(bs, Occurrences(bs, b, |bs|))
    ensures ReplaceAscii(bs, b, t) == ReplacedAll(bs, Occurrences(bs, b, |bs|), [t])
  {
    hide MatchesOk, Valid;
    OccurrencesOk(bs, b);
    ReplaceAsciiPrefix(bs, b, t, |bs|);
    var ms := Occurrences(bs, b, |bs|);
    assert ReplaceAscii(bs, b, t)[..|bs|] == ReplaceAscii(bs, b, t);
    assert bs[FrontAt(ms, |ms|)..|bs|] == bs[FrontAt(ms, |ms|)..];
  }

  // ---- replacing is joining what is left ----

  /** The parts not matched: before, between and behind the first `n` matches. */
  function Unmatched(bs: seq<Byte>, ms: seq<(nat, nat)>, n: nat, end: nat): (r: seq<seq<Byte>>)
    requires MatchesOk(bs, ms) && n <= |ms| && FrontAt(ms, n) <= end <= |bs|
    ensures |r| == n + 1
  {
    seq(n, i requires 0 <= i < n => bs[FrontAt(ms, i)..ms[i].0]) + [bs[FrontAt(ms, n)..end]]
  }

  lemma UnmatchedSplit(bs: seq<Byte>, ms: seq<(nat, nat)>, n: nat, end: nat)
    requires MatchesOk(bs, ms) && 0 < n <= |ms| && FrontAt(ms, n) <= end <= |bs|
    ensures FrontAt(ms, n - 1) <= ms[n - 1].0 <= |bs|
    ensures Unmatched(bs, ms, n, end) == Unmatched(bs, ms, n - 1, ms[n - 1].0) + [bs[FrontAt(ms, n)..end]]
  {
    MatchAt(bs, ms, n - 1);
  }

  lemma JoinOneMore(pieces: seq<seq<Byte>>, x: seq<Byte>, sep: seq<Byte>)
    requires pieces != []
    ensures Joining.Join(pieces + [x], sep) == Joining.Join(pieces, sep) + sep + x
  {
    assert (pieces + [x])[..|pieces|] == pieces;
  }

  lemma {:induction false} ReplacedIsJoin(bs: seq<Byte>, ms: seq<(nat, nat)>, to: seq<Byte>, n: nat, end: nat)
    requires MatchesOk(bs, ms) && n <= |ms| && FrontAt(ms, n) <= end <= |bs|
    ensures Replaced(bs, ms, to, n) + bs[FrontAt(ms, n)..end] == Joining.Join(Unmatched(bs, ms, n, end), to)
  {
    hide MatchesOk;
    if n > 0 {
      hide Joining.Join, Unmatched, Replaced;
      UnmatchedSplit(bs, ms, n, end);
      ReplacedOneMore(bs, ms, to, n - 1);
      ReplacedIsJoin(bs, ms, to, n - 1, ms[n - 1].0);
      JoinOneMore(Unmatched(bs, ms, n - 1, ms[n - 1].0), bs[FrontAt(ms, n)..end], to);
    }
  }

  /** Replacing every match by what was matched changes nothing. */
  lemma ReplacedBySame(bs: seq<Byte>, ms: seq<(nat, nat)>, to: seq<Byte>)
    requires MatchesOk(bs, ms) && forall j :: 0 <= j < |ms| ==> bs[ms[j].0..ms[j].1] == to
    ensures ReplacedAll(bs, ms, to) == bs
  {
    hide MatchesOk, Replaced;
    SameSoFar(bs, ms, to, |ms|);
  }

  lemma {:induction false} SameSoFar(bs: seq<Byte>, ms: seq<(nat, nat)>, to: seq<Byte>, n: nat)
    requires MatchesOk(bs, ms) && n <= |ms| && forall j :: 0 <= j < n ==> bs[ms[j].0..ms[j].1] == to
    ensures FrontAt(ms, n) <= |bs| && Replaced(bs, ms, to, n) == bs[..FrontAt(ms, n)]
  {
    hide MatchesOk;
    if n > 0 {
      hide Replaced;
      SameSoFar(bs, ms, to, n - 1);
      ReplacedOneMore(bs, ms, to, n - 1);
      MatchAt(bs, ms, n - 1);
      ThreeParts(bs, FrontAt(ms, n - 1), ms[n - 1].0, ms[n - 1].1);
    }
  }

  lemma ThreeParts(bs: seq<Byte>, i: nat, j: nat, k: nat)
    requires i <= j <= k <= |bs|
    ensures bs[..i] + bs[i..j] + bs[j..k] == bs[..k]
  {
  }

  /** The bytes matched. */
  function Matched(ms: seq<(nat, nat)>): int { if ms == [] then 0 else Matched(ms[..|ms| - 1]) + ms[|ms| - 1].1 as int - ms[|ms| - 1].0 as int }

  lemma {:induction false} ReplacedLength(bs: seq<Byte>, ms: seq<(nat, nat)>, to: seq<Byte>, n: nat)
    requires MatchesOk(bs, ms) && n <= |ms|
    ensures |Replaced(bs, ms, to, n)| == FrontAt(ms, n) - Matched(ms[..n]) + n * |to|
  {
    if n == 0 {
      assert 0 * |to| == 0;
    } else {
      MatchAt(bs, ms, n - 1);
      ReplacedLength(bs, ms, to, n - 1);
      assert ms[..n][..n - 1] == ms[..n - 1];
      assert n * |to| == (n - 1) * |to| + |to|;
    }
  }

  /** Every match gives way to `to`: the parts not matched come out in order, with `to` between any
      two of them, also where a match is empty. */
  lemma ReplaceIsJoin(bs: seq<Byte>, ms: seq<(nat, nat)>, to: seq<Byte>)
    requires MatchesOk(bs, ms)
    ensures FrontAt(ms, |ms|) <= |bs|
    ensures ReplacedAll(bs, ms, to) == Joining.Join(Unmatched(bs, ms, |ms|, |bs|), to)
    ensures |ReplacedAll(bs, ms, to)| == |bs| - Matched(ms) + |ms| * |to|
  {
    MatchAt(bs, ms, |ms|);
    ReplacedIsJoin(bs, ms, to, |ms|, |bs|);
    ReplacedLength(bs, ms, to, |ms|);
    assert ms[..|ms|] == ms && bs[FrontAt(ms, |ms|)..] == bs[FrontAt(ms, |ms|)..|bs|];
  }

  /** `str::replace`, given what the searcher matches: both paths give the string with every match
      replaced, and it is well-formed. With `to` empty that is what `remove_matches` leaves. */
  method Replace(bs: seq<Byte>, pat: Pattern, ms: seq<(nat, nat)>, to: seq<Byte>) returns (r: seq<Byte>)
    requires Valid(bs) && Valid(to) && MatchesOk(bs, ms)
    requires pat.StringPattern? ==> Valid(pat.bytes)
    requires AsciiByte(pat).Some? ==> ms == Occurrences(bs, AsciiByte(pat).value, |bs|)
    ensures r == ReplacedAll(bs, ms, to) && Valid(r)
    ensures FrontAt(ms, |ms|) <= |bs| && r == Joining.Join(Unmatched(bs, ms, |ms|, |bs|), to)
    ensures |r| == |bs| - Matched(ms) + |ms| * |to|
  {
    hide MatchesOk, Unmatched;
    ReplacedAllValid(bs, ms, to);
    ReplaceIsJoin(bs, ms, to);
    if AsciiByte(pat).Some? && |to| == 1 {
      AsciiPattern(pat);
      ReplaceAsciiIsReplace(bs, AsciiByte(pat).value, to[0]);
      assert to == [to[0]];
      return ReplaceAscii(bs, AsciiByte(pat).value, to[0]);
    }
    r := [];
    var lastEnd := 0;
    for i := 0 to |ms|
      invariant lastEnd == FrontAt(ms, i) && r == Replaced(bs, ms, to, i)
    {
      MatchAt(bs, ms, i);
      r := r + bs[lastEnd..ms[i].0];
      r := r + to;
      lastEnd := ms[i].1;
    }
    MatchAt(bs, ms, |ms|);
    r := r + bs[lastEnd..];
  }

  /** A pattern of one byte is an ASCII character. */
  lemma AsciiPattern(pat: Pattern)
    requires AsciiByte(pat).Some? && (pat.StringPattern? ==> Valid(pat.bytes))
    ensures AsciiByte(pat).value < 0x80
  {
  }
}
