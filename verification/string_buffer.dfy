/** `String`: a growable byte buffer that always holds well-formed UTF-8, edited in place. */
module StringBuffer {
  import opened Common
  import opened Utf8

  // ---- well-formedness of pieces ----

  lemma ConcatValid(a: seq<Byte>, b: seq<Byte>)
    requires Valid(a) && Valid(b)
    ensures Valid(a + b) && Chars(a + b) == Chars(a) + Chars(b)
  {
    EncodeDecode(a);
    EncodeDecode(b);
    EncodeConcat(Chars(a), Chars(b));
    DecodeEncode(Chars(a) + Chars(b));
  }

  lemma EncodingValid(cs: seq<Scalar>)
    ensures Valid(Encode(cs)) && Chars(Encode(cs)) == cs
  {
    DecodeEncode(cs);
  }

  /** A byte position between characters splits the characters. */
  lemma SplitAt(bs: seq<Byte>, i: nat) returns (k: nat)
    requires Valid(bs) && i <= |bs| && IsBoundary(bs, i)
    ensures k <= |Chars(bs)| && bs[..i] == Encode(Chars(bs)[..k]) && bs[i..] == Encode(Chars(bs)[k..])
    ensures (k == |Chars(bs)| <==> i == |bs|) && (k == 0 <==> i == 0)
  {
    var cs := Chars(bs);
    EncodeDecode(bs);
    BoundaryIffBetween(cs, i);
    k :| Between(cs, i, k);
    EncodeConcat(cs[..k], cs[k..]);
    assert cs == cs[..k] + cs[k..];
    assert bs == Encode(cs[..k]) + Encode(cs[k..]);
    assert k > 0 ==> Encode(cs[..k]) != [] by { if k > 0 { assert |EncodeChar(cs[..k][0])| > 0; } }
    assert k < |cs| ==> Encode(cs[k..]) != [] by { if k < |cs| { assert |EncodeChar(cs[k..][0])| > 0; } }
  }

  lemma PiecesValid(bs: seq<Byte>, i: nat)
    requires Valid(bs) && i <= |bs| && IsBoundary(bs, i)
    ensures Valid(bs[..i]) && Valid(bs[i..]) && Chars(bs) == Chars(bs[..i]) + Chars(bs[i..])
  {
    hide Valid, Chars, IsBoundary, Encode;
    var k := SplitAt(bs, i);
    EncodingValid(Chars(bs)[..k]);
    EncodingValid(Chars(bs)[k..]);
  }

  lemma SliceValid(bs: seq<Byte>, i: nat, j: nat)
    requires Valid(bs) && i <= j <= |bs| && IsBoundary(bs, i) && IsBoundary(bs, j)
    ensures Valid(bs[i..j])
  {
    PiecesValid(bs, i);
    assert IsBoundary(bs[i..], j - i);
    PiecesValid(bs[i..], j - i);
    assert bs[i..][..j - i] == bs[i..j];
  }

  // ---- retain ----

  /** What one call of the caller's predicate does. The first argument counts the calls, so that
      any state the closure keeps is covered. */
  datatype Verdict = Keep | Delete | Panic

  /** How many calls of `f` on `cs` return before the first panic. */
  function Returned(f: (nat, Scalar) -> Verdict, cs: seq<Scalar>): (n: nat)
    ensures n <= |cs| && (n < |cs| ==> f(n, cs[n]).Panic?) && forall i :: 0 <= i < n ==> !f(i, cs[i]).Panic?
  {
    if cs == [] then 0
    else
      var n := Returned(f, cs[..|cs| - 1]);
      if n == |cs| - 1 && !f(n, cs[n]).Panic? then n + 1 else n
  }

  /** The characters that `f` keeps. */
  function Kept(f: (nat, Scalar) -> Verdict, cs: seq<Scalar>): seq<Scalar> {
    if cs == [] then []
    else Kept(f, cs[..|cs| - 1]) + if f(|cs| - 1, cs[|cs| - 1]).Keep? then [cs[|cs| - 1]] else []
  }

  /** Exactly the characters that `f` keeps, in their order. */
  lemma {:induction false} KeptInOrder(f: (nat, Scalar) -> Verdict, cs: seq<Scalar>) returns (at: seq<nat>)
    ensures |at| == |Kept(f, cs)|
    ensures forall j :: 0 <= j < |at| ==> at[j] < |cs| && f(at[j], cs[at[j]]).Keep? && Kept(f, cs)[j] == cs[at[j]]
    ensures forall i, j :: 0 <= i < j < |at| ==> at[i] < at[j]
    ensures forall k :: 0 <= k < |cs| && f(k, cs[k]).Keep? ==> k in at
  {
    if cs == [] {
      at := [];
    } else {
      at := KeptInOrder(f, cs[..|cs| - 1]);
      if f(|cs| - 1, cs[|cs| - 1]).Keep? { at := at + [|cs| - 1]; }
    }
  }

  lemma {:induction false} ReturnedAt(f: (nat, Scalar) -> Verdict, cs: seq<Scalar>, k: nat)
    requires k < |cs| && f(k, cs[k]).Panic? && forall i :: 0 <= i < k ==> !f(i, cs[i]).Panic?
    ensures Returned(f, cs) == k
  {
    if k < |cs| - 1 { ReturnedAt(f, cs[..|cs| - 1], k); }
  }

  /** The loop of `retain` at its head: `idx` is in front of character `k`, the kept prefix is
      complete and well-formed, and the bytes not visited are untouched. */
  ghost predicate Retaining(f: (nat, Scalar) -> Verdict, cs: seq<Scalar>, bytes: seq<Byte>, idx: nat, del: nat, k: nat) {
    && k <= |cs| && idx == |Encode(cs[..k])| && del <= idx <= |bytes|
    && bytes[..idx - del] == Encode(Kept(f, cs[..k]))
    && bytes[idx..] == Encode(cs[k..])
  }

  /** The character at the loop head is decoded from untouched bytes. */
  lemma RetainHead(f: (nat, Scalar) -> Verdict, cs: seq<Scalar>, bytes: seq<Byte>, idx: nat, del: nat, k: nat)
    requires Retaining(f, cs, bytes, idx, del, k) && idx < |bytes|
    ensures k < |cs| && DecodeChar(bytes[idx..]) == Some(cs[k]) && idx + LenUtf8(cs[k]) <= |bytes|
  {
    assert k < |cs|;
    DecodeEncodeChar(cs[k], Encode(cs[k..][1..]));
    assert bytes[idx..] == EncodeChar(cs[k]) + Encode(cs[k..][1..]);
  }

  /** Skipping a character, or writing it again `del` bytes further down: its own bytes may be
      overwritten by that, those behind it are not. */
  lemma RetainStep(f: (nat, Scalar) -> Verdict, cs: seq<Scalar>, was: seq<Byte>, now: seq<Byte>, idx: nat, del: nat, k: nat)
    requires Retaining(f, cs, was, idx, del, k) && k < |cs| && |now| == |was| && idx + LenUtf8(cs[k]) <= |was|
    requires var n, at := LenUtf8(cs[k]), idx - del;
             if f(k, cs[k]).Keep? then now[..at] == was[..at] && now[at..at + n] == EncodeChar(cs[k]) && now[idx + n..] == was[idx + n..]
             else now == was
    ensures var n := LenUtf8(cs[k]);
            Retaining(f, cs, now, idx + n, if f(k, cs[k]).Keep? then del else del + n, k + 1)
  {
    hide EncodeChar, DecodeChar;
    var n, at := LenUtf8(cs[k]), idx - del;
    EncodeAt(cs, k);
    assert cs[..k + 1][..k] == cs[..k] && cs[..k + 1][k] == cs[k];
    assert cs[k..][1..] == cs[k + 1..];
    assert was[idx..] == EncodeChar(cs[k]) + Encode(cs[k + 1..]);
    assert was[idx + n..] == was[idx..][n..] == Encode(cs[k + 1..]);
    if f(k, cs[k]).Keep? {
      EncodeOne(cs[k]);
      EncodeConcat(Kept(f, cs[..k]), [cs[k]]);
      assert now[..at + n] == now[..at] + now[at..at + n];
    } else {
      assert Kept(f, cs[..k + 1]) == Kept(f, cs[..k]);
    }
  }

  // ---- remove_matches ----

  /** What a searcher reports: ranges in order, apart, and between characters. */
  ghost predicate MatchesOk(bs: seq<Byte>, ms: seq<(nat, nat)>) {
    && (forall i :: 0 <= i < |ms| ==> ms[i].0 <= ms[i].1 <= |bs| && IsBoundary(bs, ms[i].0) && IsBoundary(bs, ms[i].1))
    && (forall i :: 0 <= i < |ms| - 1 ==> ms[i].1 <= ms[i + 1].0)
  }

  /** Where the part not matched that follows the first `i` matches starts. */
  function FrontAt(ms: seq<(nat, nat)>, i: nat): nat
    requires i <= |ms|
  {
    if i == 0 then 0 else ms[i - 1].1
  }

  lemma MatchAt(bs: seq<Byte>, ms: seq<(nat, nat)>, i: nat)
    requires MatchesOk(bs, ms) && i <= |ms|
    ensures FrontAt(ms, i) <= |bs| && (i < |ms| ==> FrontAt(ms, i) <= ms[i].0 <= ms[i].1 <= |bs|)
  {
  }

  function Rejections(ms: seq<(nat, nat)>, len: nat): (r: seq<(nat, nat)>)
    ensures |r| == |ms| + 1
  {
    seq(|ms|, i requires 0 <= i < |ms| => (FrontAt(ms, i), ms[i].0)) + [(FrontAt(ms, |ms|), len)]
  }

  /** `bs` with its matches replaced by `to`: the reference, from the left. */
  function Replaced(bs: seq<Byte>, ms: seq<(nat, nat)>, to: seq<Byte>, i: nat): seq<Byte>
    requires MatchesOk(bs, ms) && i <= |ms|
  {
    if i == 0 then []
    else Replaced(bs, ms, to, i - 1) + bs[FrontAt(ms, i - 1)..ms[i - 1].0] + to
  }

  function ReplacedAll(bs: seq<Byte>, ms: seq<(nat, nat)>, to: seq<Byte>): seq<Byte>
    requires MatchesOk(bs, ms)
  {
    Replaced(bs, ms, to, |ms|) + bs[FrontAt(ms, |ms|)..]
  }

  lemma {:induction false} ReplacedValid(bs: seq<Byte>, ms: seq<(nat, nat)>, to: seq<Byte>, i: nat)
    requires MatchesOk(bs, ms) && Valid(bs) && Valid(to) && i <= |ms|
    ensures Valid(Replaced(bs, ms, to, i))
  {
    if i > 0 {
      ReplacedValid(bs, ms, to, i - 1);
      SliceValid(bs, FrontAt(ms, i - 1), ms[i - 1].0);
      ConcatValid(Replaced(bs, ms, to, i - 1), bs[FrontAt(ms, i - 1)..ms[i - 1].0]);
      ConcatValid(Replaced(bs, ms, to, i - 1) + bs[FrontAt(ms, i - 1)..ms[i - 1].0], to);
    }
  }

  lemma ReplacedAllValid(bs: seq<Byte>, ms: seq<(nat, nat)>, to: seq<Byte>)
    requires MatchesOk(bs, ms) && Valid(bs) && Valid(to)
    ensures Valid(ReplacedAll(bs, ms, to))
  {
    ReplacedValid(bs, ms, to, |ms|);
    PiecesValid(bs, FrontAt(ms, |ms|));
    ConcatValid(Replaced(bs, ms, to, |ms|), bs[FrontAt(ms, |ms|)..]);
  }

  /** What has been moved together after `i` rejections. */
  function Compacted(bs: seq<Byte>, ms: seq<(nat, nat)>, i: nat): (r: seq<Byte>)
    requires MatchesOk(bs, ms) && i <= |ms| + 1
  {
    if i == |ms| + 1 then ReplacedAll(bs, ms, []) else Replaced(bs, ms, [], i)
  }

  lemma CompactedStep(bs: seq<Byte>, ms: seq<(nat, nat)>, i: nat)
    requires MatchesOk(bs, ms) && i <= |ms|
    ensures var (start, end) := Rejections(ms, |bs|)[i];
            start <= end <= |bs| && Compacted(bs, ms, i + 1) == Compacted(bs, ms, i) + bs[start..end]
    ensures i < |ms| ==> Rejections(ms, |bs|)[i].1 <= Rejections(ms, |bs|)[i + 1].0 <= |bs|
  {
    hide MatchesOk;
    MatchAt(bs, ms, i);
    if i < |ms| {
      MatchAt(bs, ms, i + 1);
      assert Replaced(bs, ms, [], i + 1) == Replaced(bs, ms, [], i) + bs[FrontAt(ms, i)..ms[i].0] + [];
    } else {
      assert bs[FrontAt(ms, i)..] == bs[FrontAt(ms, i)..|bs|];
    }
  }
}
