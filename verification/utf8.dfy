/** UTF-8 (RFC 3629): encoding by arithmetic, decoding by the byte ranges of section 4, and the
    theorems that make them inverse to each other. */
module Utf8 {
  import opened Common

  type Byte = b: nat | b < 0x100

  /** A Unicode scalar value: a `char`. */
  type Scalar = c: nat | c < 0xD800 || (0xE000 <= c < 0x11_0000)

  // ---- encoding (section 3) ----

  /** `char::len_utf8`. */
  function LenUtf8(c: Scalar): nat {
    if c < 0x80 then 1 else if c < 0x800 then 2 else if c < 0x1_0000 then 3 else 4
  }

  function Tail(c: nat): Byte { 0x80 + c % 0x40 }

  /** `char::encode_utf8`. */
  function EncodeChar(c: Scalar): (r: seq<Byte>)
    ensures |r| == LenUtf8(c)
  {
    if c < 0x80 then [c]
    else if c < 0x800 then [0xC0 + c / 0x40, Tail(c)]
    else if c < 0x1_0000 then [0xE0 + c / 0x1000, Tail(c / 0x40), Tail(c)]
    else [0xF0 + c / 0x4_0000, Tail(c / 0x1000), Tail(c / 0x40), Tail(c)]
  }

  function Encode(cs: seq<Scalar>): seq<Byte> {
    if cs == [] then [] else EncodeChar(cs[0]) + Encode(cs[1..])
  }

  // ---- decoding (section 4) ----

  predicate IsTail(b: Byte) { 0x80 <= b < 0xC0 }

  /** The bytes that may follow the lead byte of a sequence of three or four. */
  predicate SecondOk(lead: Byte, b: Byte) {
    IsTail(b) && (lead == 0xE0 ==> 0xA0 <= b) && (lead == 0xED ==> b < 0xA0) && (lead == 0xF0 ==> 0x90 <= b) && (lead == 0xF4 ==> b < 0x90)
  }

  /** The payload of a byte: its low six, five, four or three bits. */
  function Low(b: Byte, m: nat): nat
    requires m > 0
  {
    b % m
  }

  /** The first character of `bs`, if `bs` starts with a well-formed sequence. */
  function DecodeChar(bs: seq<Byte>): (r: Option<Scalar>) {
    if |bs| == 0 then None
    else if bs[0] < 0x80 then Some(bs[0])
    else if 0xC2 <= bs[0] < 0xE0 && |bs| >= 2 && IsTail(bs[1]) then Some(Low(bs[0], 0x20) * 0x40 + Low(bs[1], 0x40))
    else if 0xE0 <= bs[0] < 0xF0 && |bs| >= 3 && SecondOk(bs[0], bs[1]) && IsTail(bs[2]) then
      Some(Low(bs[0], 0x10) * 0x1000 + Low(bs[1], 0x40) * 0x40 + Low(bs[2], 0x40))
    else if 0xF0 <= bs[0] < 0xF5 && |bs| >= 4 && SecondOk(bs[0], bs[1]) && IsTail(bs[2]) && IsTail(bs[3]) then
      Some(Low(bs[0], 8) * 0x4_0000 + Low(bs[1], 0x40) * 0x1000 + Low(bs[2], 0x40) * 0x40 + Low(bs[3], 0x40))
    else None
  }

  /** Decoding reads back what was encoded, whatever follows. */
  lemma DecodeEncodeChar(c: Scalar, rest: seq<Byte>)
    ensures DecodeChar(EncodeChar(c) + rest) == Some(c)
  {
    var bs := EncodeChar(c) + rest;
    assert bs[0] == EncodeChar(c)[0];
    if c < 0x80 {
    } else if c < 0x800 {
      assert bs[1] == EncodeChar(c)[1];
      assert c / 0x40 < 0x20;
    } else if c < 0x1_0000 {
      Decode3(c, bs, rest);
    } else {
      Decode4(c, bs, rest);
    }
  }

  lemma Decode3(c: Scalar, bs: seq<Byte>, rest: seq<Byte>)
    requires 0x800 <= c < 0x1_0000 && bs == EncodeChar(c) + rest
    ensures DecodeChar(bs) == Some(c)
  {
    hide EncodeChar;
    Bytes3(c, bs, rest);
    Split3(c);
    assert SecondOk(bs[0], bs[1]);
  }

  lemma Bytes3(c: Scalar, bs: seq<Byte>, rest: seq<Byte>)
    requires 0x800 <= c < 0x1_0000 && bs == EncodeChar(c) + rest
    ensures |bs| >= 3 && bs[0] == 0xE0 + c / 0x1000 && bs[1] == 0x80 + (c / 0x40) % 0x40 && bs[2] == 0x80 + c % 0x40
  {
  }

  lemma Split3(c: Scalar)
    requires 0x800 <= c < 0x1_0000
    ensures var a, b, d := c / 0x1000, (c / 0x40) % 0x40, c % 0x40;
            && c == a * 0x1000 + b * 0x40 + d && a < 0x10 && (a == 0 ==> b >= 0x20) && (a == 0xD ==> b < 0x20)
            && (0xE0 + a) % 0x10 == a && (0x80 + b) % 0x40 == b && (0x80 + d) % 0x40 == d
  {
    var x: nat := c / 0x40;
    assert x / 0x40 == c / 0x1000;
  }

  lemma Decode4(c: Scalar, bs: seq<Byte>, rest: seq<Byte>)
    requires 0x1_0000 <= c && bs == EncodeChar(c) + rest
    ensures DecodeChar(bs) == Some(c)
  {
    hide EncodeChar;
    var a, b, d, e: nat := c / 0x4_0000, (c / 0x1000) % 0x40, (c / 0x40) % 0x40, c % 0x40;
    Bytes4(c, bs, rest);
    Split4(c);
    Payload4(a, b, d, e);
    assert SecondOk(bs[0], bs[1]);
  }

  lemma Bytes4(c: Scalar, bs: seq<Byte>, rest: seq<Byte>)
    requires 0x1_0000 <= c && bs == EncodeChar(c) + rest
    ensures |bs| >= 4 && bs[0] == 0xF0 + c / 0x4_0000 && bs[1] == 0x80 + (c / 0x1000) % 0x40
    ensures bs[2] == 0x80 + (c / 0x40) % 0x40 && bs[3] == 0x80 + c % 0x40
  {
  }

  lemma Split4(c: Scalar)
    requires 0x1_0000 <= c
    ensures var a, b := c / 0x4_0000, (c / 0x1000) % 0x40;
            && c == a * 0x4_0000 + b * 0x1000 + ((c / 0x40) % 0x40) * 0x40 + c % 0x40
            && a <= 4 && (a == 0 ==> b >= 0x10) && (a == 4 ==> b < 0x10)
  {
    var x: nat := c / 0x40;
    var y: nat := x / 0x40;
    assert y == c / 0x1000 && y / 0x40 == c / 0x4_0000;
  }

  lemma Payload4(a: nat, b: nat, d: nat, e: nat)
    requires a < 8 && b < 0x40 && d < 0x40 && e < 0x40
    ensures (0xF0 + a) % 8 == a && (0x80 + b) % 0x40 == b && (0x80 + d) % 0x40 == d && (0x80 + e) % 0x40 == e
  {
  }

  /** What decodes is exactly an encoding: no overlong form, no surrogate, nothing above U+10FFFF. */
  lemma EncodeDecodeChar(bs: seq<Byte>)
    requires DecodeChar(bs).Some?
    ensures var c := DecodeChar(bs).value; LenUtf8(c) <= |bs| && bs[..LenUtf8(c)] == EncodeChar(c)
  {
    hide EncodeChar;
    if bs[0] < 0x80 {
      Encode1Of(bs[0]);
    } else if bs[0] < 0xE0 {
      Encode2Of(bs[0], bs[1]);
    } else if bs[0] < 0xF0 {
      Encode3Of(bs[0], bs[1], bs[2]);
    } else {
      Encode4Of(bs[0], bs[1], bs[2], bs[3]);
    }
  }

  lemma Encode1Of(p: Byte)
    requires p < 0x80
    ensures EncodeChar(p) == [p]
  {
  }

  lemma Encode2Of(p: Byte, q: Byte)
    requires 0xC2 <= p < 0xE0 && IsTail(q)
    ensures var c := Low(p, 0x20) * 0x40 + Low(q, 0x40); LenUtf8(c) == 2 && EncodeChar(c) == [p, q]
  {
    var a, b: nat := p - 0xC0, q - 0x80;
    assert Low(p, 0x20) == a && Low(q, 0x40) == b;
  }

  lemma Encode3Of(p: Byte, q: Byte, r: Byte)
    requires 0xE0 <= p < 0xF0 && SecondOk(p, q) && IsTail(r)
    ensures var c := Low(p, 0x10) * 0x1000 + Low(q, 0x40) * 0x40 + Low(r, 0x40);
            (c < 0xD800 || 0xE000 <= c < 0x1_0000) && LenUtf8(c) == 3 && EncodeChar(c) == [p, q, r]
  {
    var a, b, d: nat := p - 0xE0, q - 0x80, r - 0x80;
    assert Low(p, 0x10) == a && Low(q, 0x40) == b && Low(r, 0x40) == d;
    Digits3(a, b, d);
  }

  lemma Encode4Of(p: Byte, q: Byte, r: Byte, s: Byte)
    requires 0xF0 <= p < 0xF5 && SecondOk(p, q) && IsTail(r) && IsTail(s)
    ensures var c := Low(p, 8) * 0x4_0000 + Low(q, 0x40) * 0x1000 + Low(r, 0x40) * 0x40 + Low(s, 0x40);
            0x1_0000 <= c < 0x11_0000 && LenUtf8(c) == 4 && EncodeChar(c) == [p, q, r, s]
  {
    hide EncodeChar;
    var a, b, d, e: nat := p - 0xF0, q - 0x80, r - 0x80, s - 0x80;
    Payload4(a, b, d, e);
    Digits4(a, b, d, e);
    var c := a * 0x4_0000 + b * 0x1000 + d * 0x40 + e;
    assert 0x1_0000 <= c < 0x11_0000;
    Bytes4(c, EncodeChar(c) + [], []);
    assert EncodeChar(c) + [] == EncodeChar(c);
  }

  lemma Digits3(a: nat, b: nat, d: nat)
    requires b < 0x40 && d < 0x40
    ensures var c := a * 0x1000 + b * 0x40 + d;
            c / 0x1000 == a && c / 0x40 == a * 0x40 + b && (c / 0x40) % 0x40 == b && c % 0x40 == d
  {
  }

  lemma Digits4(a: nat, b: nat, d: nat, e: nat)
    requires b < 0x40 && d < 0x40 && e < 0x40
    ensures var c := a * 0x4_0000 + b * 0x1000 + d * 0x40 + e;
            c / 0x4_0000 == a && (c / 0x1000) % 0x40 == b && (c / 0x40) % 0x40 == d && c % 0x40 == e
  {
    var c := a * 0x4_0000 + b * 0x1000 + d * 0x40 + e;
    assert c / 0x40 == a * 0x1000 + b * 0x40 + d;
    assert c / 0x1000 == a * 0x40 + b;
  }

  /** The characters of a byte string, if it is well-formed. */
  function Decode(bs: seq<Byte>): Option<seq<Scalar>>
    decreases |bs|
  {
    if bs == [] then Some([])
    else match DecodeChar(bs)
      case None => None
      case Some(c) =>
        if LenUtf8(c) > |bs| then None
        else match Decode(bs[LenUtf8(c)..])
          case None => None
          case Some(cs) => Some([c] + cs)
  }

  predicate Valid(bs: seq<Byte>) { Decode(bs).Some? }

  function Chars(bs: seq<Byte>): seq<Scalar>
    requires Valid(bs)
  {
    Decode(bs).value
  }

  lemma {:induction false} DecodeEncode(cs: seq<Scalar>)
    ensures Decode(Encode(cs)) == Some(cs)
  {
    hide DecodeChar, EncodeChar;
    if cs != [] {
      DecodeEncodeChar(cs[0], Encode(cs[1..]));
      DecodeEncode(cs[1..]);
      assert Encode(cs)[LenUtf8(cs[0])..] == Encode(cs[1..]) && [cs[0]] + cs[1..] == cs;
    }
  }

  lemma {:induction false} EncodeDecode(bs: seq<Byte>)
    requires Valid(bs)
    ensures Encode(Chars(bs)) == bs
    decreases |bs|
  {
    hide DecodeChar, EncodeChar;
    if bs != [] {
      EncodeDecodeChar(bs);
      var n := LenUtf8(DecodeChar(bs).value);
      EncodeDecode(bs[n..]);
      assert bs == bs[..n] + bs[n..];
      assert Chars(bs)[1..] == Chars(bs[n..]);
    }
  }

  /** A byte string is well-formed exactly when it encodes some characters, and then only those. */
  lemma ValidIffEncoding(bs: seq<Byte>)
    ensures Valid(bs) <==> exists cs :: Encode(cs) == bs
    ensures forall cs :: Encode(cs) == bs ==> Valid(bs) && Chars(bs) == cs
  {
    if Valid(bs) { EncodeDecode(bs); }
    forall cs | Encode(cs) == bs ensures Valid(bs) && Chars(bs) == cs { DecodeEncode(cs); }
  }

  lemma {:induction false} EncodeConcat(a: seq<Scalar>, b: seq<Scalar>)
    ensures Encode(a + b) == Encode(a) + Encode(b)
  {
    if a == [] {
      assert a + b == b;
    } else {
      assert (a + b)[1..] == a[1..] + b;
      EncodeConcat(a[1..], b);
    }
  }

  lemma EncodeOne(c: Scalar)
    ensures Encode([c]) == EncodeChar(c)
  {
    assert Encode([]) == [];
  }

  /** The string in front of, and behind, its `k`-th character. */
  lemma EncodeAt(cs: seq<Scalar>, k: nat)
    requires k < |cs|
    ensures Encode(cs) == Encode(cs[..k]) + EncodeChar(cs[k]) + Encode(cs[k + 1..])
    ensures Encode(cs[..k + 1]) == Encode(cs[..k]) + EncodeChar(cs[k])
    ensures DecodeChar(Encode(cs)[|Encode(cs[..k])|..]) == Some(cs[k])
  {
    hide DecodeChar, EncodeChar, Encode;
    EncodeOne(cs[k]);
    EncodeConcat(cs[..k], [cs[k]]);
    assert cs[..k + 1] == cs[..k] + [cs[k]];
    EncodeConcat(cs[..k + 1], cs[k + 1..]);
    assert cs == cs[..k + 1] + cs[k + 1..];
    DecodeEncodeChar(cs[k], Encode(cs[k + 1..]));
    var p := |Encode(cs[..k])|;
    assert Encode(cs)[p..] == EncodeChar(cs[k]) + Encode(cs[k + 1..]);
  }

  // ---- character boundaries ----

  /** `str::is_char_boundary`: an end, or not in front of a continuation byte. */
  predicate IsBoundary(bs: seq<Byte>, i: nat) { i == 0 || i == |bs| || (i < |bs| && !IsTail(bs[i])) }

  /** Position `i` falls in front of character `k`. */
  ghost predicate Between(cs: seq<Scalar>, i: nat, k: nat) { k <= |cs| && i == |Encode(cs[..k])| }

  ghost predicate BetweenChars(cs: seq<Scalar>, i: nat) { exists k: nat :: Between(cs, i, k) }

  lemma EncodeCharTails(c: Scalar)
    ensures !IsTail(EncodeChar(c)[0]) && forall j :: 0 < j < LenUtf8(c) ==> IsTail(EncodeChar(c)[j])
  {
  }

  lemma BetweenShift(cs: seq<Scalar>, i: nat, k: nat)
    requires cs != [] && LenUtf8(cs[0]) <= i && k < |cs|
    ensures Between(cs[1..], i - LenUtf8(cs[0]), k) <==> Between(cs, i, k + 1)
  {
    assert cs[..k + 1][1..] == cs[1..][..k] && cs[..k + 1][0] == cs[0];
  }

  lemma BetweenStart(cs: seq<Scalar>, i: nat, k: nat)
    requires cs != [] && i < LenUtf8(cs[0]) && k <= |cs|
    ensures Between(cs, i, k) <==> i == 0 && k == 0
  {
    assert cs[..0] == [];
    if k > 0 { assert cs[..k][0] == cs[0]; }
  }

  lemma BetweenRest(cs: seq<Scalar>, i: nat)
    requires cs != [] && LenUtf8(cs[0]) <= i
    ensures BetweenChars(cs[1..], i - LenUtf8(cs[0])) <==> BetweenChars(cs, i)
  {
    var n := LenUtf8(cs[0]);
    assert cs[..0] == [];
    if BetweenChars(cs[1..], i - n) {
      var k: nat :| Between(cs[1..], i - n, k);
      BetweenShift(cs, i, k);
      assert Between(cs, i, k + 1);
    }
    if BetweenChars(cs, i) {
      var k: nat :| Between(cs, i, k);
      BetweenShift(cs, i, k - 1);
      assert Between(cs[1..], i - n, k - 1);
    }
  }

  /** On a well-formed string the test on one byte finds exactly the places between characters. */
  lemma {:induction false} BoundaryIffBetween(cs: seq<Scalar>, i: nat)
    requires i <= |Encode(cs)|
    ensures IsBoundary(Encode(cs), i) <==> BetweenChars(cs, i)
  {
    assert cs[..0] == [] && cs[..|cs|] == cs;
    if i == 0 {
      assert Between(cs, 0, 0);
    } else if i == |Encode(cs)| {
      assert Between(cs, i, |cs|);
    } else {
      var n, rest := LenUtf8(cs[0]), cs[1..];
      EncodeCharTails(cs[0]);
      assert Encode(cs) == EncodeChar(cs[0]) + Encode(rest);
      if i < n {
        forall k: nat | k <= |cs| ensures !Between(cs, i, k) { BetweenStart(cs, i, k); }
      } else {
        assert Encode(cs)[i] == Encode(rest)[i - n];
        if rest != [] { EncodeCharTails(rest[0]); }
        BoundaryIffBetween(rest, i - n);
        BetweenRest(cs, i);
      }
    }
  }
}
