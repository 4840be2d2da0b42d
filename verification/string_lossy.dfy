/** `from_utf8_lossy` and `into_utf8_lossy`: every maximal ill-formed piece becomes U+FFFD. */
module StringLossy {
  import opened Common
  import opened Utf8
  import opened StringBuffer

  const REPLACEMENT: Scalar := 0xFFFD

  // ---- the ill-formed piece at the front ----

  /** How many bytes an ill-formed front takes up, by the byte ranges of section 4 of RFC 3629. */
  function BadLen(bs: seq<Byte>): (n: nat)
    requires bs != [] && DecodeChar(bs).None?
    ensures 1 <= n <= 3 && n <= |bs|
  {
    if 0xE0 <= bs[0] < 0xF5 && |bs| >= 2 && SecondOk(bs[0], bs[1]) then
      if 0xF0 <= bs[0] && |bs| >= 3 && IsTail(bs[2]) then 3 else 2
    else 1
  }

  /** `p` starts the encoding of some character without being all of it. */
  ghost predicate Truncated(p: seq<Byte>) { exists c: Scalar :: p < EncodeChar(c) }

  /** Section 3.9 of the Unicode Standard: the piece replaced is the longest front of the bytes that
      a well-formed sequence could start with, or else one byte. */
  lemma BadLenIsMaximal(bs: seq<Byte>)
    requires bs != [] && DecodeChar(bs).None?
    ensures BadLen(bs) > 1 ==> Truncated(bs[..BadLen(bs)])
    ensures forall k :: BadLen(bs) < k <= |bs| ==> !Truncated(bs[..k])
  {
    var n := BadLen(bs);
    if n == 2 {
      TwoOfMore(bs[0], bs[1]);
      assert bs[..2] == [bs[0], bs[1]];
    } else if n == 3 {
      ThreeOfFour(bs[0], bs[1], bs[2]);
      assert bs[..3] == [bs[0], bs[1], bs[2]];
    }
    forall k, c: Scalar | n < k <= |bs| ensures !(bs[..k] < EncodeChar(c)) { NotLonger(bs, k, c); }
  }

  lemma TwoOfMore(p: Byte, q: Byte)
    requires 0xE0 <= p < 0xF5 && SecondOk(p, q)
    ensures Truncated([p, q])
  {
    if p < 0xF0 {
      Encode3Of(p, q, 0x80);
      var c: Scalar := Low(p, 0x10) * 0x1000 + Low(q, 0x40) * 0x40 + Low(0x80, 0x40);
      assert [p, q] < EncodeChar(c);
    } else {
      Encode4Of(p, q, 0x80, 0x80);
      var c: Scalar := Low(p, 8) * 0x4_0000 + Low(q, 0x40) * 0x1000 + Low(0x80, 0x40) * 0x40 + Low(0x80, 0x40);
      assert [p, q] < EncodeChar(c);
    }
  }

  lemma ThreeOfFour(p: Byte, q: Byte, r: Byte)
    requires 0xF0 <= p < 0xF5 && SecondOk(p, q) && IsTail(r)
    ensures Truncated([p, q, r])
  {
    Encode4Of(p, q, r, 0x80);
    var c: Scalar := Low(p, 8) * 0x4_0000 + Low(q, 0x40) * 0x1000 + Low(r, 0x40) * 0x40 + Low(0x80, 0x40);
    assert [p, q, r] < EncodeChar(c);
  }

  /** The bytes of an encoding lie in the ranges. */
  lemma EncodedRanges(c: Scalar)
    ensures var e := EncodeChar(c);
            && (|e| == 2 ==> 0xC2 <= e[0] < 0xE0)
            && (|e| == 3 ==> 0xE0 <= e[0] < 0xF0 && SecondOk(e[0], e[1]))
            && (|e| == 4 ==> 0xF0 <= e[0] < 0xF5 && SecondOk(e[0], e[1]) && IsTail(e[2]))
  {
    if 0x1_0000 <= c {
      Bytes4(c, EncodeChar(c) + [], []);
      Split4(c);
      assert EncodeChar(c) + [] == EncodeChar(c);
    }
  }

  lemma NotLonger(bs: seq<Byte>, k: nat, c: Scalar)
    requires bs != [] && DecodeChar(bs).None? && BadLen(bs) < k <= |bs|
    ensures !(bs[..k] < EncodeChar(c))
  {
    hide EncodeChar;
    EncodedRanges(c);
    var e := EncodeChar(c);
    if bs[..k] <= e {
      assert bs[0] == e[0] && bs[1] == e[1];
      if k >= 3 { assert bs[2] == e[2]; }
    }
  }

  // ---- utf8_chunks ----

  /** A stretch of well-formed bytes and the ill-formed piece behind it, empty only at the end. */
  datatype Chunk = Chunk(valid: seq<Byte>, invalid: seq<Byte>)

  /** `Utf8Error::valid_up_to`: the length of the longest well-formed front. */
  function ValidUpTo(bs: seq<Byte>): (n: nat)
    ensures n <= |bs|
    decreases |bs|
  {
    if DecodeChar(bs).None? then 0
    else if LenUtf8(DecodeChar(bs).value) > |bs| then 0
    else LenUtf8(DecodeChar(bs).value) + ValidUpTo(bs[LenUtf8(DecodeChar(bs).value)..])
  }

  lemma {:induction false} ValidUpToStops(bs: seq<Byte>)
    ensures Valid(bs[..ValidUpTo(bs)]) && (ValidUpTo(bs) < |bs| ==> DecodeChar(bs[ValidUpTo(bs)..]).None?)
    ensures ValidUpTo(bs) == |bs| <==> Valid(bs)
    decreases |bs|
  {
    hide DecodeChar, EncodeChar, Chars;
    if bs == [] {
    } else if DecodeChar(bs).Some? {
      EncodeDecodeChar(bs);
      var c := DecodeChar(bs).value;
      var n, rest := LenUtf8(c), bs[LenUtf8(c)..];
      ValidUpToStops(rest);
      var v := ValidUpTo(rest);
      assert bs[n + v..] == rest[v..];
      assert bs[..n + v] == EncodeChar(c) + rest[..v];
      EncodeOne(c);
      EncodingValid([c]);
      ConcatValid(EncodeChar(c), rest[..v]);
    } else {
      assert bs[..0] == [] && bs[0..] == bs;
    }
  }

  function Chunks(bs: seq<Byte>): seq<Chunk>
    decreases |bs|
  {
    if bs == [] then []
    else
      var v := ValidUpTo(bs);
      if v == |bs| || DecodeChar(bs[v..]).Some? then [Chunk(bs, [])]
      else [Chunk(bs[..v], bs[v..v + BadLen(bs[v..])])] + Chunks(bs[v + BadLen(bs[v..])..])
  }

  // ---- the reference: one character at a time ----

  function Lossy(bs: seq<Byte>): seq<Scalar>
    decreases |bs|
  {
    if bs == [] then []
    else if DecodeChar(bs).None? then [REPLACEMENT] + Lossy(bs[BadLen(bs)..])
    else if LenUtf8(DecodeChar(bs).value) > |bs| then []
    else [DecodeChar(bs).value] + Lossy(bs[LenUtf8(DecodeChar(bs).value)..])
  }

  /** An ill-formed front comes out as the three bytes of U+FFFD. */
  lemma IllFormedFront(bs: seq<Byte>)
    requires bs != [] && DecodeChar(bs).None?
    ensures Encode(Lossy(bs)) == [0xEF, 0xBF, 0xBD] + Encode(Lossy(bs[BadLen(bs)..]))
  {
    hide DecodeChar, BadLen;
    var rest := Lossy(bs[BadLen(bs)..]);
    EncodeConcat([REPLACEMENT], rest);
    EncodeOne(REPLACEMENT);
    assert EncodeChar(REPLACEMENT) == [0xEF, 0xBF, 0xBD];
  }

  lemma LossyOne(c: Scalar, tail: seq<Byte>)
    ensures Lossy(EncodeChar(c) + tail) == [c] + Lossy(tail)
  {
    hide DecodeChar, EncodeChar, BadLen;
    var bs := EncodeChar(c) + tail;
    DecodeEncodeChar(c, tail);
    assert |bs| == LenUtf8(c) + |tail| && bs[LenUtf8(c)..] == tail;
    assert Lossy(bs) == [c] + Lossy(bs[LenUtf8(c)..]);
  }

  lemma {:induction false} LossyValidFront(cs: seq<Scalar>, rest: seq<Byte>)
    ensures Lossy(Encode(cs) + rest) == cs + Lossy(rest)
  {
    hide DecodeChar, EncodeChar, BadLen, Lossy;
    if cs == [] {
      assert Encode(cs) + rest == rest;
    } else {
      var tail := Encode(cs[1..]) + rest;
      assert Encode(cs) + rest == EncodeChar(cs[0]) + tail;
      LossyOne(cs[0], tail);
      LossyValidFront(cs[1..], rest);
      assert [cs[0]] + (cs[1..] + Lossy(rest)) == cs + Lossy(rest);
    }
  }

  /** Well-formed input is its own lossy decoding. */
  lemma LossyIsIdentity(bs: seq<Byte>)
    requires Valid(bs)
    ensures Encode(Lossy(bs)) == bs
  {
    EncodeDecode(bs);
    LossyValidFront(Chars(bs), []);
    assert Encode(Chars(bs)) + [] == bs && Chars(bs) + [] == Chars(bs) && Lossy([]) == [];
  }

  /** What a chunk contributes to the output. */
  function Output(c: Chunk): seq<Byte> { c.valid + if c.invalid == [] then [] else EncodeChar(REPLACEMENT) }

  function Outputs(cs: seq<Chunk>): seq<Byte> { if cs == [] then [] else Outputs(cs[..|cs| - 1]) + Output(cs[|cs| - 1]) }

  lemma {:induction false} OutputsFront(c: Chunk, cs: seq<Chunk>)
    ensures Outputs([c] + cs) == Output(c) + Outputs(cs)
  {
    if cs == [] {
      assert ([c] + cs)[..0] == [];
    } else {
      var init := cs[..|cs| - 1];
      assert ([c] + cs)[..|cs|] == [c] + init;
      OutputsFront(c, init);
    }
  }

  lemma OutputsStep(cs: seq<Chunk>, i: nat)
    requires i < |cs|
    ensures Outputs(cs[..i + 1]) == Outputs(cs[..i]) + Output(cs[i])
  {
    assert cs[..i + 1][..i] == cs[..i];
  }

  /** The chunks, put together, are the lossy decoding. */
  lemma {:induction false} ChunksAreLossy(bs: seq<Byte>)
    ensures Outputs(Chunks(bs)) == Encode(Lossy(bs))
    decreases |bs|
  {
    hide DecodeChar, EncodeChar, BadLen;
    if bs != [] {
      var v := ValidUpTo(bs);
      ValidUpToStops(bs);
      if v == |bs| {
        LossyIsIdentity(bs);
        OutputsFront(Chunk(bs, []), []);
        assert [Chunk(bs, [])] + [] == [Chunk(bs, [])];
      } else {
        var bad := bs[v..];
        var rest := bad[BadLen(bad)..];
        assert rest == bs[v + BadLen(bad)..];
        ChunksAreLossy(rest);
        OutputsFront(Chunk(bs[..v], bs[v..v + BadLen(bad)]), Chunks(rest));
        LossyBad(bs, v, bad, rest);
      }
    }
  }

  lemma LossyBad(bs: seq<Byte>, v: nat, bad: seq<Byte>, rest: seq<Byte>)
    requires v < |bs| && Valid(bs[..v]) && bad == bs[v..] && DecodeChar(bad).None? && rest == bad[BadLen(bad)..]
    ensures Encode(Lossy(bs)) == bs[..v] + EncodeChar(REPLACEMENT) + Encode(Lossy(rest))
  {
    hide DecodeChar, EncodeChar, BadLen;
    var cs := Chars(bs[..v]);
    EncodeDecode(bs[..v]);
    LossyValidFront(cs, bad);
    assert bs == bs[..v] + bad;
    assert Lossy(bad) == [REPLACEMENT] + Lossy(rest);
    EncodeOne(REPLACEMENT);
    EncodeConcat([REPLACEMENT], Lossy(rest));
    EncodeConcat(cs, [REPLACEMENT] + Lossy(rest));
  }

  // ---- the two functions ----

  /** `String::from_utf8_lossy`. `borrowed`: the input itself is the result. */
  method FromUtf8Lossy(v: seq<Byte>) returns (r: seq<Byte>, borrowed: bool)
    ensures r == Encode(Lossy(v)) && Valid(r)
    ensures borrowed <==> Valid(v)
    ensures borrowed ==> r == v
  {
    hide Valid, EncodeChar, Lossy, Chunks, Encode, Outputs;
    var chunks := Chunks(v);
    ChunksAreLossy(v);
    EncodingValid(Lossy(v));
    FirstChunk(v);
    if chunks == [] { return [], true; }
    OutputsFront(chunks[0], chunks[1..]);
    assert chunks == [chunks[0]] + chunks[1..];
    if chunks[0].invalid == [] { return chunks[0].valid, true; }
    r := chunks[0].valid;
    r := r + EncodeChar(REPLACEMENT);
    for i := 1 to |chunks|
      invariant r == Outputs(chunks[..i])
    {
      OutputsStep(chunks, i);
      r := r + chunks[i].valid;
      if chunks[i].invalid != [] {
        r := r + EncodeChar(REPLACEMENT);
      }
    }
    assert chunks[..|chunks|] == chunks;
    borrowed := false;
  }

  lemma FirstChunk(v: seq<Byte>)
    ensures var cs := Chunks(v);
            && (cs == [] <==> v == []) && (Valid(v) <==> cs == [] || cs[0].invalid == [])
            && (cs != [] && cs[0].invalid == [] ==> cs == [Chunk(v, [])])
            && Outputs([]) == [] && (cs != [] ==> Outputs(cs[..1]) == Output(cs[0]))
  {
    hide DecodeChar, EncodeChar;
    ValidUpToStops(v);
    if v != [] {
      var cs := Chunks(v);
      assert cs[..1] == [cs[0]] + [];
      OutputsFront(cs[0], []);
    }
  }

  /** `FromUtf8Error::into_utf8_lossy`: the error remembers how far the bytes were well-formed. */
  method IntoUtf8Lossy(bytes: seq<Byte>, validUpTo: nat) returns (r: seq<Byte>)
    requires validUpTo == ValidUpTo(bytes) && !Valid(bytes)
    ensures r == Encode(Lossy(bytes)) && Valid(r)
  {
    hide Valid, EncodeChar, Lossy;
    ValidUpToStops(bytes);
    r := bytes[..validUpTo];
    var chunks := Chunks(bytes[validUpTo..]);
    for i := 0 to |chunks|
      invariant r == bytes[..validUpTo] + Outputs(chunks[..i])
    {
      assert chunks[..i + 1][..i] == chunks[..i];
      r := r + chunks[i].valid;
      if chunks[i].invalid != [] {
        r := r + EncodeChar(REPLACEMENT);
      }
    }
    assert chunks[..|chunks|] == chunks;
    SplitLossy(bytes, validUpTo);
    EncodingValid(Lossy(bytes));
  }

  lemma SplitLossy(bytes: seq<Byte>, v: nat)
    requires v <= |bytes| && Valid(bytes[..v])
    ensures Encode(Lossy(bytes)) == bytes[..v] + Outputs(Chunks(bytes[v..]))
  {
    hide DecodeChar, EncodeChar, Lossy;
    var cs := Chars(bytes[..v]);
    EncodeDecode(bytes[..v]);
    LossyValidFront(cs, bytes[v..]);
    assert bytes == bytes[..v] + bytes[v..];
    EncodeConcat(cs, Lossy(bytes[v..]));
    ChunksAreLossy(bytes[v..]);
  }
}
