/** `str::to_lowercase`: an ASCII prefix converted in chunks, then character by character, with the
    context of each capital sigma taken from the original string. */
module StrLowercase {
  import opened Common
  import opened Utf8
  import opened StringBuffer

  const SIGMA: Scalar := 0x3A3
  const FINAL_SIGMA: Scalar := 0x3C2
  const SMALL_SIGMA: Scalar := 0x3C3
  const CHUNK: nat := 16

  /** The Unicode tables: `conversions::to_lower` (unused places hold 0), `is_cased` and
      `is_case_ignorable`. */
  datatype Tables = Tables(toLower: Scalar -> (Scalar, Scalar, Scalar), cased: Scalar -> bool, ignorable: Scalar -> bool)

  function AsciiLower(b: Byte): Byte { if 0x41 <= b <= 0x5A then b + 0x20 else b }

  /** On ASCII the table is `to_ascii_lowercase`. */
  ghost predicate AsciiTable(u: Tables) {
    forall c: Scalar :: c < 0x80 ==> u.toLower(c) == (AsciiLower(c), 0, 0)
  }

  // ---- the reference, on characters ----

  /** The characters of a table entry; a 0 in second or third place is padding. */
  function Expand(e: (Scalar, Scalar, Scalar)): seq<Scalar> {
    if e.1 == 0 then [e.0] else if e.2 == 0 then [e.0, e.1] else [e.0, e.1, e.2]
  }

  /** The first character that is not case-ignorable is cased. */
  predicate CaseIgnorableThenCased(u: Tables, cs: seq<Scalar>) {
    cs != [] && if u.ignorable(cs[0]) then CaseIgnorableThenCased(u, cs[1..]) else u.cased(cs[0])
  }

  function Reversed(cs: seq<Scalar>): (r: seq<Scalar>)
    ensures |r| == |cs| && forall i :: 0 <= i < |cs| ==> r[i] == cs[|cs| - 1 - i]
  {
    if cs == [] then [] else Reversed(cs[1..]) + [cs[0]]
  }

  /** `Final_Sigma` for character `k` of the whole string. */
  predicate WordFinal(u: Tables, cs: seq<Scalar>, k: nat)
    requires k < |cs|
  {
    CaseIgnorableThenCased(u, Reversed(cs[..k])) && !CaseIgnorableThenCased(u, cs[k + 1..])
  }

  function LowerAt(u: Tables, cs: seq<Scalar>, k: nat): seq<Scalar>
    requires k < |cs|
  {
    if cs[k] == SIGMA then [if WordFinal(u, cs, k) then FINAL_SIGMA else SMALL_SIGMA] else Expand(u.toLower(cs[k]))
  }

  /** The first `k` characters mapped, each in the context of the whole string. */
  function Lowered(u: Tables, cs: seq<Scalar>, k: nat): seq<Scalar>
    requires k <= |cs|
  {
    if k == 0 then [] else Lowered(u, cs, k - 1) + LowerAt(u, cs, k - 1)
  }

  /** What a capital sigma, the bytes CE A3, becomes. */
  lemma SigmaBytes(u: Tables, cs: seq<Scalar>, k: nat)
    requires k < |cs| && EncodeChar(cs[k]) == [0xCE, 0xA3]
    ensures Encode(LowerAt(u, cs, k)) == if WordFinal(u, cs, k) then [0xCF, 0x82] else [0xCF, 0x83]
  {
    hide WordFinal, EncodeChar;
    assert cs[k] == SIGMA by { OnlySigma(cs[k]); }
    EncodeOne(FINAL_SIGMA);
    EncodeOne(SMALL_SIGMA);
    SmallSigmas();
  }

  lemma OnlySigma(c: Scalar)
    requires EncodeChar(c) == [0xCE, 0xA3]
    ensures c == SIGMA
  {
  }

  lemma SmallSigmas()
    ensures EncodeChar(FINAL_SIGMA) == [0xCF, 0x82] && EncodeChar(SMALL_SIGMA) == [0xCF, 0x83]
  {
  }

  /** A table entry is its characters and then the padding. */
  lemma ExpandPads(e: (Scalar, Scalar, Scalar))
    requires e.1 == 0 ==> e.2 == 0
    ensures var r := Expand(e);
            && 1 <= |r| <= 3 && [e.0, e.1, e.2] == r + seq(3 - |r|, _ => 0) && (|r| > 1 ==> r[|r| - 1] != 0)
  {
  }

  /** Lowering changes no character that the table maps to itself, so not one that is lowercase. */
  ghost predicate Fixed(u: Tables, c: Scalar) { c != SIGMA && u.toLower(c) == (c, 0, 0) }

  lemma {:induction false} LoweredFixed(u: Tables, cs: seq<Scalar>, k: nat)
    requires k <= |cs| && forall i :: 0 <= i < k ==> Fixed(u, cs[i])
    ensures Lowered(u, cs, k) == cs[..k]
  {
    if k > 0 { LoweredFixed(u, cs, k - 1); }
  }

  /** Lowering twice is lowering once, where the table gives only characters it maps to themselves. */
  lemma LoweredTwice(u: Tables, cs: seq<Scalar>)
    requires Fixed(u, FINAL_SIGMA) && Fixed(u, SMALL_SIGMA)
    requires forall c, d: Scalar :: c != SIGMA && d in Expand(u.toLower(c)) ==> Fixed(u, d)
    ensures var r := Lowered(u, cs, |cs|); Lowered(u, r, |r|) == r
  {
    hide Lowered, WordFinal, Expand, Fixed;
    LoweredAllFixed(u, cs, |cs|);
    var r := Lowered(u, cs, |cs|);
    LoweredFixed(u, r, |r|);
    assert r[..|r|] == r;
  }

  lemma {:induction false} LoweredAllFixed(u: Tables, cs: seq<Scalar>, k: nat)
    requires k <= |cs| && Fixed(u, FINAL_SIGMA) && Fixed(u, SMALL_SIGMA)
    requires forall c, d: Scalar :: c != SIGMA && d in Expand(u.toLower(c)) ==> Fixed(u, d)
    ensures forall i :: 0 <= i < |Lowered(u, cs, k)| ==> Fixed(u, Lowered(u, cs, k)[i])
  {
    hide WordFinal, Expand, Fixed;
    if k > 0 {
      LoweredAllFixed(u, cs, k - 1);
      forall d | d in LowerAt(u, cs, k - 1) ensures Fixed(u, d) {}
    }
  }

  // ---- Final_Sigma, section 3.13 of the Unicode Standard ----

  /** Character `i` is cased, and those before it are case-ignorable. */
  ghost predicate CasedAfter(u: Tables, cs: seq<Scalar>, i: nat) {
    i < |cs| && u.cased(cs[i]) && forall j :: 0 <= j < i ==> u.ignorable(cs[j])
  }

  /** Zero or more case-ignorable characters and then a cased one. */
  ghost predicate FollowedByCased(u: Tables, cs: seq<Scalar>) { exists i: nat :: CasedAfter(u, cs, i) }

  /** A cased character among the case-ignorable ones that come first. */
  ghost predicate CasedAmongIgnorable(u: Tables, cs: seq<Scalar>) {
    exists i: nat :: CasedAfter(u, cs, i) && u.ignorable(cs[i])
  }

  /** The code looks at the first character that is not case-ignorable; the regular expression of
      the standard may also stop at a character that is both. They agree exactly when no such
      character decides the matter. */
  lemma {:induction false} ContextReadings(u: Tables, cs: seq<Scalar>)
    ensures FollowedByCased(u, cs) <==> CaseIgnorableThenCased(u, cs) || CasedAmongIgnorable(u, cs)
  {
    if cs != [] {
      ContextReadings(u, cs[1..]);
      if u.ignorable(cs[0]) {
        FollowedShift(u, cs);
        AmongShift(u, cs);
      } else {
        forall i: nat | CasedAfter(u, cs, i) ensures i == 0 {}
        assert u.cased(cs[0]) ==> CasedAfter(u, cs, 0);
      }
    }
  }

  lemma AfterShift(u: Tables, cs: seq<Scalar>, i: nat)
    requires cs != [] && u.ignorable(cs[0])
    ensures CasedAfter(u, cs, i + 1) <==> CasedAfter(u, cs[1..], i)
  {
    if CasedAfter(u, cs[1..], i) {
      forall j | 0 <= j < i + 1 ensures u.ignorable(cs[j]) { assert j > 0 ==> cs[1..][j - 1] == cs[j]; }
    }
  }

  lemma FollowedShift(u: Tables, cs: seq<Scalar>)
    requires cs != [] && u.ignorable(cs[0])
    ensures FollowedByCased(u, cs) <==> u.cased(cs[0]) || FollowedByCased(u, cs[1..])
  {
    if FollowedByCased(u, cs) && !u.cased(cs[0]) {
      var i: nat :| CasedAfter(u, cs, i);
      AfterShift(u, cs, i - 1);
    }
    if FollowedByCased(u, cs[1..]) {
      var i: nat :| CasedAfter(u, cs[1..], i);
      AfterShift(u, cs, i);
    }
    assert u.cased(cs[0]) ==> CasedAfter(u, cs, 0);
  }

  lemma AmongShift(u: Tables, cs: seq<Scalar>)
    requires cs != [] && u.ignorable(cs[0])
    ensures CasedAmongIgnorable(u, cs) <==> u.cased(cs[0]) || CasedAmongIgnorable(u, cs[1..])
  {
    if CasedAmongIgnorable(u, cs) && !u.cased(cs[0]) {
      var i: nat :| CasedAfter(u, cs, i) && u.ignorable(cs[i]);
      AfterShift(u, cs, i - 1);
    }
    if CasedAmongIgnorable(u, cs[1..]) {
      var i: nat :| CasedAfter(u, cs[1..], i) && u.ignorable(cs[1..][i]);
      AfterShift(u, cs, i);
    }
    assert u.cased(cs[0]) ==> CasedAfter(u, cs, 0);
  }

  /** Final_Sigma as the regular expressions of the standard put it. */
  ghost predicate FinalSigma(u: Tables, cs: seq<Scalar>, k: nat)
    requires k < |cs|
  {
    FollowedByCased(u, Reversed(cs[..k])) && !FollowedByCased(u, cs[k + 1..])
  }

  /** The characters next to the sigma that are both cased and case-ignorable change nothing: what
      follows is cased for the code anyway, or such a character neither follows a sigma the code
      takes to be final, nor alone precedes one. */
  ghost predicate Agrees(u: Tables, cs: seq<Scalar>, k: nat)
    requires k < |cs|
  {
    var (before, after) := (Reversed(cs[..k]), cs[k + 1..]);
    CaseIgnorableThenCased(u, after)
    || if CaseIgnorableThenCased(u, before) then !CasedAmongIgnorable(u, after)
       else CasedAmongIgnorable(u, before) ==> CasedAmongIgnorable(u, after)
  }

  /** The code decides as the standard does exactly when such characters change nothing. */
  lemma WordFinalIsFinalSigma(u: Tables, cs: seq<Scalar>, k: nat)
    requires k < |cs|
    ensures (WordFinal(u, cs, k) <==> FinalSigma(u, cs, k)) <==> Agrees(u, cs, k)
  {
    ContextReadings(u, Reversed(cs[..k]));
    ContextReadings(u, cs[k + 1..]);
  }

  /** They differ under every table in which U+02B0, a modifier letter, is both cased and
      case-ignorable, as it is in Unicode: on that letter followed by a capital sigma. */
  lemma ReadingsDiffer(u: Tables)
    requires u.cased(0x2B0) && u.ignorable(0x2B0)
    ensures FinalSigma(u, [0x2B0, SIGMA], 1) && !WordFinal(u, [0x2B0, SIGMA], 1)
  {
    var cs: seq<Scalar> := [0x2B0, SIGMA];
    var before := Reversed(cs[..1]);
    assert before == [0x2B0];
    assert CasedAfter(u, before, 0);
    assert cs[2..] == [] && before[1..] == [];
  }

  // ---- the whole string, by the standard ----

  ghost function StandardAt(u: Tables, cs: seq<Scalar>, k: nat): seq<Scalar>
    requires k < |cs|
  {
    if cs[k] == SIGMA then [if FinalSigma(u, cs, k) then FINAL_SIGMA else SMALL_SIGMA] else Expand(u.toLower(cs[k]))
  }

  /** The first `k` characters mapped, with each sigma judged by the standard's expressions. */
  ghost function Standard(u: Tables, cs: seq<Scalar>, k: nat): seq<Scalar>
    requires k <= |cs|
  {
    if k == 0 then [] else Standard(u, cs, k - 1) + StandardAt(u, cs, k - 1)
  }

  ghost predicate AllAgree(u: Tables, cs: seq<Scalar>, k: nat)
    requires k <= |cs|
  {
    forall i :: 0 <= i < k && cs[i] == SIGMA ==> Agrees(u, cs, i)
  }

  lemma {:induction false} LoweredIsStandard(u: Tables, cs: seq<Scalar>, k: nat)
    requires k <= |cs|
    ensures |Lowered(u, cs, k)| == |Standard(u, cs, k)| && (Lowered(u, cs, k) == Standard(u, cs, k) <==> AllAgree(u, cs, k))
  {
    hide WordFinal, FinalSigma, Agrees, Expand;
    if k > 0 {
      LoweredIsStandard(u, cs, k - 1);
      WordFinalIsFinalSigma(u, cs, k - 1);
      assert AllAgree(u, cs, k) <==> AllAgree(u, cs, k - 1) && (cs[k - 1] == SIGMA ==> Agrees(u, cs, k - 1));
      SplitEqual(Lowered(u, cs, k - 1), LowerAt(u, cs, k - 1), Standard(u, cs, k - 1), StandardAt(u, cs, k - 1));
    }
  }

  lemma SplitEqual(a: seq<Scalar>, x: seq<Scalar>, b: seq<Scalar>, y: seq<Scalar>)
    requires |a| == |b|
    ensures a + x == b + y <==> a == b && x == y
  {
    if a + x == b + y {
      assert a == (a + x)[..|a|] && b == (b + y)[..|a|];
      assert x == (a + x)[|a|..] && y == (b + y)[|a|..];
    }
  }

  /** The bytes are those of the standard's lowercase exactly when every sigma agrees. */
  lemma LowercaseIsStandard(u: Tables, cs: seq<Scalar>)
    ensures Encode(Lowered(u, cs, |cs|)) == Encode(Standard(u, cs, |cs|)) <==> AllAgree(u, cs, |cs|)
  {
    LoweredIsStandard(u, cs, |cs|);
    DecodeEncode(Lowered(u, cs, |cs|));
    DecodeEncode(Standard(u, cs, |cs|));
  }

  // ---- the ASCII prefix ----

  /** The length of the longest prefix of ASCII bytes. */
  function AsciiPrefix(bs: seq<Byte>): (n: nat)
    ensures n <= |bs| && (forall i :: 0 <= i < n ==> bs[i] < 0x80) && (n < |bs| ==> bs[n] >= 0x80)
  {
    if bs == [] || bs[0] >= 0x80 then 0 else 1 + AsciiPrefix(bs[1..])
  }

  lemma {:induction false} PrefixAt(bs: seq<Byte>, n: nat)
    requires n <= |bs| && (forall i :: 0 <= i < n ==> bs[i] < 0x80) && (n < |bs| ==> bs[n] >= 0x80)
    ensures AsciiPrefix(bs) == n
  {
    if n > 0 { PrefixAt(bs[1..], n - 1); }
  }

  function Mapped(bs: seq<Byte>, convert: Byte -> Byte): (r: seq<Byte>)
    ensures |r| == |bs|
  {
    seq(|bs|, i requires 0 <= i < |bs| => convert(bs[i]))
  }

  /** `convert_while_ascii`: chunks of 16 while they are all ASCII, then single bytes. The result is
      the whole ASCII prefix converted, and where the rest starts, whatever the chunks. */
  method ConvertWhileAscii(s: seq<Byte>, convert: Byte -> Byte) returns (out: seq<Byte>, rest: nat)
    ensures rest == AsciiPrefix(s) && out == Mapped(s[..rest], convert)
  {
    var buf := new Byte[|s|](_ => 0);
    var done: nat := 0;
    var isAscii := new bool[CHUNK](_ => false);
    while |s| - done >= CHUNK
      invariant done <= |s| && fresh(buf) && buf.Length == |s| && fresh(isAscii) && isAscii.Length == CHUNK
      invariant buf[..done] == Mapped(s[..done], convert) && forall i :: 0 <= i < done ==> s[i] < 0x80
    {
      var sum := 0;
      for j := 0 to CHUNK
        invariant fresh(isAscii) && isAscii.Length == CHUNK && buf[..done] == Mapped(s[..done], convert)
        invariant forall i :: 0 <= i < j ==> isAscii[i] == (s[done + i] < 0x80)
        invariant 0 <= sum <= j && (sum == j ==> forall i :: 0 <= i < j ==> isAscii[i])
      {
        isAscii[j] := s[done + j] <= 127;
        sum := sum + if isAscii[j] then 1 else 0;
      }
      if sum != CHUNK { break; }
      assert forall i :: 0 <= i < CHUNK ==> isAscii[i];
      forall j | 0 <= j < CHUNK {
        buf[done + j] := convert(s[done + j]);
      }
      assert buf[..done + CHUNK] == Mapped(s[..done + CHUNK], convert);
      forall i | done <= i < done + CHUNK ensures s[i] < 0x80 {
        var j := i - done;
        assert isAscii[j] && s[done + j] < 0x80;
      }
      done := done + CHUNK;
    }
    while |s| - done > 0
      invariant done <= |s| && fresh(buf) && buf.Length == |s|
      invariant buf[..done] == Mapped(s[..done], convert) && forall i :: 0 <= i < done ==> s[i] < 0x80
    {
      var byte := s[done];
      if byte > 127 { break; }
      buf[done] := convert(byte);
      done := done + 1;
      assert buf[..done] == Mapped(s[..done], convert);
    }
    PrefixAt(s, done);
    out, rest := buf[..done], done;
  }

  // ---- the prefix as characters ----

  /** The ASCII prefix of a well-formed string is its first characters, one byte each. */
  lemma {:induction false} PrefixChars(cs: seq<Scalar>, n: nat)
    requires n <= |Encode(cs)| && forall i :: 0 <= i < n ==> Encode(cs)[i] < 0x80
    ensures n <= |cs| && Encode(cs[..n]) == Encode(cs)[..n] && forall i :: 0 <= i < n ==> cs[i] == Encode(cs)[i]
    ensures forall i :: 0 <= i <= n ==> |Encode(cs[..i])| == i
  {
    assert cs[..0] == [];
    if n > 0 {
      assert Encode(cs)[0] == EncodeChar(cs[0])[0];
      assert EncodeChar(cs[0]) == [cs[0]] && Encode(cs)[1..] == Encode(cs[1..]);
      PrefixChars(cs[1..], n - 1);
      assert cs[..n][1..] == cs[1..][..n - 1];
      forall i | 0 <= i <= n ensures |Encode(cs[..i])| == i {
        if i > 0 { assert cs[..i][1..] == cs[1..][..i - 1]; }
      }
    }
  }

  /** Lowering the prefix byte by byte is lowering its characters by the table. */
  lemma {:induction false} PrefixLowered(u: Tables, cs: seq<Scalar>, n: nat)
    requires AsciiTable(u) && n <= |cs| && forall i :: 0 <= i < n ==> cs[i] < 0x80
    ensures Lowered(u, cs, n) == seq(n, i requires 0 <= i < n => AsciiLower(cs[i]))
  {
    if n > 0 {
      PrefixLowered(u, cs, n - 1);
      assert LowerAt(u, cs, n - 1) == [AsciiLower(cs[n - 1])];
    }
  }

  lemma {:induction false} EncodeAscii(cs: seq<Scalar>)
    requires forall i :: 0 <= i < |cs| ==> cs[i] < 0x80
    ensures |Encode(cs)| == |cs| && forall i :: 0 <= i < |cs| ==> Encode(cs)[i] == cs[i]
  {
    if cs != [] { EncodeAscii(cs[1..]); }
  }

  /** The converted prefix is well-formed, and is the lowered prefix. */
  lemma PrefixResult(u: Tables, s: seq<Byte>, n: nat)
    requires AsciiTable(u) && Valid(s) && n == AsciiPrefix(s)
    ensures n <= |Chars(s)| && |Encode(Chars(s)[..n])| == n && Mapped(s[..n], AsciiLower) == Encode(Lowered(u, Chars(s), n))
  {
    var cs := Chars(s);
    EncodeDecode(s);
    PrefixChars(cs, n);
    PrefixLowered(u, cs, n);
    EncodeAscii(Lowered(u, cs, n));
    assert Mapped(s[..n], AsciiLower) == Encode(Lowered(u, cs, n));
  }

  // ---- the tail, character by character ----

  /** `String::push`, as a value. */
  function Pushed(s: seq<Byte>, c: Scalar): seq<Byte> { s + EncodeChar(c) }

  lemma PushedEncode(cs: seq<Scalar>, c: Scalar)
    ensures Pushed(Encode(cs), c) == Encode(cs + [c])
  {
    EncodeOne(c);
    EncodeConcat(cs, [c]);
  }

  /** `map_uppercase_sigma`: the context of the sigma at byte `i` of the original string. */
  method MapUppercaseSigma(u: Tables, from: seq<Byte>, i: nat) returns (r: Scalar)
    requires Valid(from) && i < |from| && IsBoundary(from, i) && DecodeChar(from[i..]) == Some(SIGMA)
    ensures exists k: nat :: k < |Chars(from)| && Between(Chars(from), i, k) && Chars(from)[k] == SIGMA
              && r == if WordFinal(u, Chars(from), k) then FINAL_SIGMA else SMALL_SIGMA
  {
    hide Valid, EncodeChar, DecodeChar, CaseIgnorableThenCased, IsBoundary;
    ghost var k := SigmaContext(from, i);
    var isWordFinal := CaseIgnorableThenCased(u, Reversed(Chars(from[..i]))) && !CaseIgnorableThenCased(u, Chars(from[i + 2..]));
    assert isWordFinal == WordFinal(u, Chars(from), k);
    r := if isWordFinal then FINAL_SIGMA else SMALL_SIGMA;
  }

  lemma SigmaContext(from: seq<Byte>, i: nat) returns (k: nat)
    requires Valid(from) && i < |from| && IsBoundary(from, i) && DecodeChar(from[i..]) == Some(SIGMA)
    ensures k < |Chars(from)| && Between(Chars(from), i, k) && Chars(from)[k] == SIGMA && i + 2 <= |from|
    ensures Valid(from[..i]) && Valid(from[i + 2..])
    ensures Chars(from[..i]) == Chars(from)[..k] && Chars(from[i + 2..]) == Chars(from)[k + 1..]
  {
    hide Valid, EncodeChar, DecodeChar, IsBoundary;
    var cs := Chars(from);
    k := SplitAt(from, i);
    EncodeDecode(from);
    EncodeAt(cs, k);
    assert cs[k] == SIGMA && LenUtf8(SIGMA) == 2;
    assert from[i..] == EncodeChar(cs[k]) + Encode(cs[k + 1..]) by {
      assert from == from[..i] + from[i..];
      assert from == (Encode(cs[..k]) + EncodeChar(cs[k])) + Encode(cs[k + 1..]);
    }
    assert from[i + 2..] == from[i..][2..];
    EncodingValid(cs[..k]);
    EncodingValid(cs[k + 1..]);
  }

  /** `to_lowercase`: every character mapped in the context of the original string. The offset that
      the loop computes for a sigma is always that character's own place in the input. */
  method ToLowercase(u: Tables, s: seq<Byte>) returns (r: seq<Byte>)
    requires Valid(s) && AsciiTable(u)
    ensures r == Encode(Lowered(u, Chars(s), |Chars(s)|)) && Valid(r)
    ensures r == Encode(Standard(u, Chars(s), |Chars(s)|)) <==> AllAgree(u, Chars(s), |Chars(s)|)
  {
    hide Valid, EncodeChar, DecodeChar, Lowered, Standard, AllAgree, WordFinal, Expand, IsBoundary, Encode, Pushed, Chars;
    var rest: nat;
    r, rest := ConvertWhileAscii(s, AsciiLower);
    ghost var cs := Chars(s);
    PrefixResult(u, s, rest);
    EncodeDecode(s);
    ghost var k: nat := rest;
    var prefixLen, i := rest, 0;
    while prefixLen + i < |s|
      invariant k <= |cs| && prefixLen + i == |Encode(cs[..k])| && i >= 0
      invariant r == Encode(Lowered(u, cs, k))
      decreases |s| - i
    {
      CharHere(cs, s, k);
      var c := DecodeChar(s[prefixLen + i..]).value;
      if c == SIGMA {
        var sigma := MapUppercaseSigma(u, s, prefixLen + i);
        SamePlace(cs, prefixLen + i, k);
        LoweredSigma(u, cs, k, sigma);
        r := Pushed(r, sigma);
      } else {
        LoweredOther(u, cs, k);
        var e := u.toLower(c);
        r := Pushed(r, e.0);
        if e.1 != 0 {
          r := Pushed(r, e.1);
          if e.2 != 0 {
            r := Pushed(r, e.2);
          }
        }
      }
      i, k := i + LenUtf8(c), k + 1;
    }
    AllChars(cs, k, s);
    EncodingValid(Lowered(u, cs, k));
    LowercaseIsStandard(u, cs);
  }

  lemma CharHere(cs: seq<Scalar>, s: seq<Byte>, k: nat)
    requires s == Encode(cs) && k <= |cs| && |Encode(cs[..k])| < |s|
    ensures k < |cs| && DecodeChar(s[|Encode(cs[..k])|..]) == Some(cs[k])
    ensures |Encode(cs[..k + 1])| == |Encode(cs[..k])| + LenUtf8(cs[k]) <= |s| && IsBoundary(s, |Encode(cs[..k])|)
  {
    assert cs[..|cs|] == cs;
    EncodeAt(cs, k);
    assert Between(cs, |Encode(cs[..k])|, k);
    BoundaryIffBetween(cs, |Encode(cs[..k])|);
  }

  /** Two characters never start at the same place. */
  lemma SamePlace(cs: seq<Scalar>, i: nat, k: nat)
    requires Between(cs, i, k) && k < |cs|
    ensures forall m: nat :: Between(cs, i, m) && m < |cs| ==> m == k
  {
    forall m: nat | Between(cs, i, m) && m < |cs| ensures m == k {
      if m < k { Longer(cs, m, k); } else if k < m { Longer(cs, k, m); }
    }
  }

  lemma Longer(cs: seq<Scalar>, m: nat, k: nat)
    requires m < k <= |cs|
    ensures |Encode(cs[..m])| < |Encode(cs[..k])|
  {
    assert cs[..k] == cs[..m] + cs[m..k];
    EncodeConcat(cs[..m], cs[m..k]);
    assert |EncodeChar(cs[m..k][0])| > 0;
  }

  lemma LoweredSigma(u: Tables, cs: seq<Scalar>, k: nat, sigma: Scalar)
    requires k < |cs| && cs[k] == SIGMA && sigma == if WordFinal(u, cs, k) then FINAL_SIGMA else SMALL_SIGMA
    ensures Pushed(Encode(Lowered(u, cs, k)), sigma) == Encode(Lowered(u, cs, k + 1))
  {
    hide WordFinal;
    PushedEncode(Lowered(u, cs, k), sigma);
  }

  lemma LoweredOther(u: Tables, cs: seq<Scalar>, k: nat)
    requires k < |cs| && cs[k] != SIGMA
    ensures var e, r := u.toLower(cs[k]), Encode(Lowered(u, cs, k));
            Encode(Lowered(u, cs, k + 1)) ==
              if e.1 == 0 then Pushed(r, e.0)
              else if e.2 == 0 then Pushed(Pushed(r, e.0), e.1)
              else Pushed(Pushed(Pushed(r, e.0), e.1), e.2)
  {
    hide WordFinal, EncodeChar, Encode;
    var e, l := u.toLower(cs[k]), Lowered(u, cs, k);
    PushedEncode(l, e.0);
    PushedEncode(l + [e.0], e.1);
    PushedEncode(l + [e.0] + [e.1], e.2);
    assert l + [e.0] + [e.1] == l + [e.0, e.1] && l + [e.0] + [e.1] + [e.2] == l + [e.0, e.1, e.2];
  }

  lemma AllChars(cs: seq<Scalar>, k: nat, s: seq<Byte>)
    requires k <= |cs| && s == Encode(cs) && |Encode(cs[..k])| >= |s|
    ensures k == |cs|
  {
    assert cs[..|cs|] == cs;
    if k < |cs| { Longer(cs, k, |cs|); }
  }
}
