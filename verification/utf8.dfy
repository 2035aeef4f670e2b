/** UTF-8 as the reflow program uses it (section 3 of RFC 3629): the length
    of one rune's encoding, the encoding of a rune, the decoding of the first
    rune of a byte sequence, and the re-encoding of a rune slice. */
module Utf8 {

  /** One octet of encoded text. */
  type Byte = b: int | 0 <= b < 256

  /** The replacement character U+FFFD, returned for an invalid sequence. */
  const RuneError: int := 0xFFFD

  /** The largest Unicode code point. */
  const MaxRune: int := 0x10FFFF

  /** A Unicode scalar value: a code point that is not a surrogate. */
  predicate IsScalar(r: int) {
    0 <= r <= MaxRune && !(0xD800 <= r <= 0xDFFF)
  }

  predicate AllScalar(rs: seq<int>) {
    forall k :: 0 <= k < |rs| ==> IsScalar(rs[k])
  }

  /** A continuation octet 10xxxxxx. */
  predicate IsCont(b: Byte) {
    0x80 <= b <= 0xBF
  }

  /** Number of octets encoding `r`, or -1 when `r` is not a scalar value. */
  function RuneLen(r: int): (n: int)
    ensures n == -1 <==> !IsScalar(r)
    ensures IsScalar(r) ==> 1 <= n <= 4
    ensures 0 <= r < 0x80 <==> n == 1
  {
    if r < 0 then -1
    else if r < 0x80 then 1
    else if r < 0x800 then 2
    else if 0xD800 <= r <= 0xDFFF then -1
    else if r < 0x10000 then 3
    else if r <= MaxRune then 4
    else -1
  }

  /** The encoding of one rune; a value that is not a scalar is written as
      the encoding of RuneError. */
  function EncodeRune(r: int): (bs: seq<Byte>)
    ensures IsScalar(r) ==> |bs| == RuneLen(r)
    ensures !IsScalar(r) ==> bs == [0xEF, 0xBF, 0xBD]
    ensures 1 <= |bs| <= 4
  {
    if 0 <= r < 0x80 then [r]
    else if 0 <= r < 0x800 then [0xC0 + r / 64, 0x80 + r % 64]
    else if !IsScalar(r) then [0xEF, 0xBF, 0xBD]
    else if r < 0x10000 then [0xE0 + r / 64 / 64, 0x80 + r / 64 % 64, 0x80 + r % 64]
    else [0xF0 + r / 64 / 64 / 64, 0x80 + r / 64 / 64 % 64, 0x80 + r / 64 % 64, 0x80 + r % 64]
  }

  /** The value of a two-octet sequence. */
  function Value2(b0: Byte, b1: Byte): (r: int)
    requires 0xC2 <= b0 <= 0xDF && IsCont(b1)
    ensures 0x80 <= r < 0x800
  {
    (b0 % 32) * 64 + b1 % 64
  }

  /** The value of a three-octet sequence; the second-octet bounds exclude
      overlong forms and surrogates. */
  function Value3(b0: Byte, b1: Byte, b2: Byte): (r: int)
    requires 0xE0 <= b0 <= 0xEF && IsCont(b1) && IsCont(b2)
    requires b0 == 0xE0 ==> 0xA0 <= b1
    requires b0 == 0xED ==> b1 <= 0x9F
    ensures 0x800 <= r < 0x10000 && IsScalar(r)
  {
    var t := (b0 % 16) * 64 + b1 % 64;
    assert b0 % 16 == b0 - 0xE0 && b1 % 64 == b1 - 0x80;
    t * 64 + b2 % 64
  }

  /** The value of a four-octet sequence; the second-octet bounds exclude
      overlong forms and values past MaxRune. */
  function Value4(b0: Byte, b1: Byte, b2: Byte, b3: Byte): (r: int)
    requires 0xF0 <= b0 <= 0xF4 && IsCont(b1) && IsCont(b2) && IsCont(b3)
    requires b0 == 0xF0 ==> 0x90 <= b1
    requires b0 == 0xF4 ==> b1 <= 0x8F
    ensures 0x10000 <= r <= MaxRune
  {
    var u := (b0 % 8) * 64 + b1 % 64;
    assert b0 % 8 == b0 - 0xF0 && b1 % 64 == b1 - 0x80;
    assert 16 <= u < 0x110;
    (u * 64 + b2 % 64) * 64 + b3 % 64
  }

  /** Decodes the first rune of `p`, returning the rune and the number of
      octets it occupies. An empty input gives (RuneError, 0); an invalid,
      overlong, surrogate or truncated sequence gives (RuneError, 1). The
      accepted second-octet ranges are those of section 4 of RFC 3629. */
  function DecodeRune(p: seq<Byte>): (d: (int, nat))
    ensures IsScalar(d.0)
    ensures d.1 == 0 <==> |p| == 0
    ensures d.1 <= |p| && d.1 <= 4
    ensures |p| == 0 ==> d.0 == RuneError
    ensures |p| > 0 && p[0] < 0x80 ==> d == (p[0], 1)
    ensures |p| > 0 && (IsCont(p[0]) || p[0] in {0xC0, 0xC1} || p[0] >= 0xF5) ==> d == (RuneError, 1)
  {
    if |p| == 0 then (RuneError, 0)
    else
      var b0 := p[0];
      if b0 < 0x80 then (b0, 1)
      else if b0 < 0xC2 || 0xF4 < b0 then (RuneError, 1)
      else
        var size := if b0 < 0xE0 then 2 else if b0 < 0xF0 then 3 else 4;
        var lo := if b0 == 0xE0 then 0xA0 else if b0 == 0xF0 then 0x90 else 0x80;
        var hi := if b0 == 0xED then 0x9F else if b0 == 0xF4 then 0x8F else 0xBF;
        if |p| < size then (RuneError, 1)
        else if p[1] < lo || hi < p[1] then (RuneError, 1)
        else if size == 2 then (Value2(b0, p[1]), 2)
        else if !IsCont(p[2]) then (RuneError, 1)
        else if size == 3 then (Value3(b0, p[1], p[2]), 3)
        else if !IsCont(p[3]) then (RuneError, 1)
        else (Value4(b0, p[1], p[2], p[3]), 4)
  }

  /** Decodes a whole byte sequence, rune by rune, as `range string(b)` does. */
  function Decode(bs: seq<Byte>): (rs: seq<int>)
    ensures AllScalar(rs)
    ensures |rs| <= |bs|
    decreases |bs|
  {
    if |bs| == 0 then []
    else
      var d := DecodeRune(bs);
      [d.0] + Decode(bs[d.1..])
  }

  /** The concatenated encodings of `rs`. */
  function EncodeAll(rs: seq<int>): (bs: seq<Byte>) {
    if |rs| == 0 then [] else EncodeRune(rs[0]) + EncodeAll(rs[1..])
  }

  /** Sum of RuneLen over `rs`: the buffer size encodeRunes allocates. */
  function SumRuneLen(rs: seq<int>): (n: int) {
    if |rs| == 0 then 0 else RuneLen(rs[0]) + SumRuneLen(rs[1..])
  }

  lemma EncodeAllAppend(rs: seq<int>, r: int)
    ensures EncodeAll(rs + [r]) == EncodeAll(rs) + EncodeRune(r)
    ensures SumRuneLen(rs + [r]) == SumRuneLen(rs) + RuneLen(r)
  {
    if |rs| > 0 {
      assert (rs + [r])[1..] == rs[1..] + [r];
      EncodeAllAppend(rs[1..], r);
    }
  }

  lemma {:induction false} EncodeAllLength(rs: seq<int>)
    requires AllScalar(rs)
    ensures |EncodeAll(rs)| == SumRuneLen(rs)
  {
    if |rs| > 0 {
      EncodeAllLength(rs[1..]);
    }
  }

  lemma DecodeTwo(r: int, tail: seq<Byte>)
    requires 0x80 <= r < 0x800
    ensures DecodeRune(EncodeRune(r) + tail) == (r, 2)
  {
    var q, m := r / 64, r % 64;
    assert 2 <= q < 32;
    assert (0xC0 + q) % 32 == q;
    assert (0x80 + m) % 64 == m;
  }

  lemma DecodeThree(r: int, tail: seq<Byte>)
    requires 0x800 <= r < 0x10000 && IsScalar(r)
    ensures DecodeRune(EncodeRune(r) + tail) == (r, 3)
  {
    var c, t := r % 64, r / 64;
    var b, a := t % 64, t / 64;
    assert r == t * 64 + c && t == a * 64 + b;
    assert 0 <= a < 16;
    assert (0xE0 + a) % 16 == a;
    assert (0x80 + b) % 64 == b;
    assert (0x80 + c) % 64 == c;
    if a == 0 {
      assert b >= 32;
    }
    if a == 13 {
      assert t < 0xD800 / 64;
      assert b < 32;
    }
  }

  lemma DecodeFour(r: int, tail: seq<Byte>)
    requires 0x10000 <= r <= MaxRune
    ensures DecodeRune(EncodeRune(r) + tail) == (r, 4)
  {
    var d, t := r % 64, r / 64;
    var c, u := t % 64, t / 64;
    var b, a := u % 64, u / 64;
    assert r == t * 64 + d && t == u * 64 + c && u == a * 64 + b;
    assert 0 <= a <= 4;
    assert (0xF0 + a) % 8 == a;
    assert (0x80 + b) % 64 == b;
    assert (0x80 + c) % 64 == c;
    assert (0x80 + d) % 64 == d;
    if a == 0 {
      assert u >= 16;
      assert b >= 16;
    }
    if a == 4 {
      assert u < 0x110000 / 4096;
      assert b < 16;
    }
  }

  /** Decoding the encoding of a scalar value gives the value back and
      consumes exactly RuneLen octets, whatever follows. */
  lemma DecodeEncodeRune(r: int, tail: seq<Byte>)
    requires IsScalar(r)
    ensures DecodeRune(EncodeRune(r) + tail) == (r, RuneLen(r))
  {
    if r < 0x80 {
    } else if r < 0x800 {
      DecodeTwo(r, tail);
    } else if r < 0x10000 {
      DecodeThree(r, tail);
    } else {
      DecodeFour(r, tail);
    }
  }

  /** A valid two-octet sequence is the encoding of its value. */
  lemma EncodeValue2(b0: Byte, b1: Byte)
    requires 0xC2 <= b0 <= 0xDF && IsCont(b1)
    ensures EncodeRune(Value2(b0, b1)) == [b0, b1]
  {
    var r := Value2(b0, b1);
    assert r == (b0 - 0xC0) * 64 + (b1 - 0x80);
    assert r / 64 == b0 - 0xC0 && r % 64 == b1 - 0x80;
  }

  /** A valid three-octet sequence is the encoding of its value. */
  lemma EncodeValue3(b0: Byte, b1: Byte, b2: Byte)
    requires 0xE0 <= b0 <= 0xEF && IsCont(b1) && IsCont(b2)
    requires b0 == 0xE0 ==> 0xA0 <= b1
    requires b0 == 0xED ==> b1 <= 0x9F
    ensures EncodeRune(Value3(b0, b1, b2)) == [b0, b1, b2]
  {
    var r := Value3(b0, b1, b2);
    var t := (b0 - 0xE0) * 64 + (b1 - 0x80);
    assert r == t * 64 + (b2 - 0x80);
    assert r / 64 == t && r % 64 == b2 - 0x80;
    assert t / 64 == b0 - 0xE0 && t % 64 == b1 - 0x80;
  }

  /** Dividing out one base-64 digit. */
  lemma Digit64(q: int, m: int)
    requires 0 <= m < 64
    ensures (q * 64 + m) / 64 == q && (q * 64 + m) % 64 == m
  {
  }

  /** The encoding of a four-octet value, given its base-64 digits. */
  lemma EncodeFourDigits(a: int, b: int, c: int, d: int)
    requires 0 <= a <= 4 && 0 <= b < 64 && 0 <= c < 64 && 0 <= d < 64
    requires 0x10000 <= ((a * 64 + b) * 64 + c) * 64 + d <= MaxRune
    ensures EncodeRune(((a * 64 + b) * 64 + c) * 64 + d) == [0xF0 + a, 0x80 + b, 0x80 + c, 0x80 + d]
  {
    var u := a * 64 + b;
    var t := u * 64 + c;
    var r := t * 64 + d;
    Digit64(t, d);
    Digit64(u, c);
    Digit64(a, b);
    assert r / 64 == t && r / 64 / 64 == u && r / 64 / 64 / 64 == a;
  }

  /** A valid four-octet sequence is the encoding of its value. */
  lemma EncodeValue4(b0: Byte, b1: Byte, b2: Byte, b3: Byte)
    requires 0xF0 <= b0 <= 0xF4 && IsCont(b1) && IsCont(b2) && IsCont(b3)
    requires b0 == 0xF0 ==> 0x90 <= b1
    requires b0 == 0xF4 ==> b1 <= 0x8F
    ensures EncodeRune(Value4(b0, b1, b2, b3)) == [b0, b1, b2, b3]
  {
    assert b0 % 8 == b0 - 0xF0 && b1 % 64 == b1 - 0x80 && b2 % 64 == b2 - 0x80 && b3 % 64 == b3 - 0x80;
    assert Value4(b0, b1, b2, b3) == (((b0 - 0xF0) * 64 + (b1 - 0x80)) * 64 + (b2 - 0x80)) * 64 + (b3 - 0x80);
    EncodeFourDigits(b0 - 0xF0, b1 - 0x80, b2 - 0x80, b3 - 0x80);
  }

  /** The converse of DecodeEncodeRune: a non-empty input either decodes to
      (RuneError, 1), or its first decoded octets are exactly the encoding of
      the rune decoded. */
  lemma DecodeRuneSound(p: seq<Byte>)
    requires |p| > 0
    ensures var d := DecodeRune(p); d == (RuneError, 1) || p[..d.1] == EncodeRune(d.0)
  {
    var d := DecodeRune(p);
    if d != (RuneError, 1) {
      var b0 := p[0];
      if b0 < 0x80 {
        assert p[..1] == [b0];
      } else if d.1 == 2 {
        EncodeValue2(b0, p[1]);
        assert p[..2] == [b0, p[1]];
      } else if d.1 == 3 {
        EncodeValue3(b0, p[1], p[2]);
        assert p[..3] == [b0, p[1], p[2]];
      } else {
        EncodeValue4(b0, p[1], p[2], p[3]);
        assert p[..4] == [b0, p[1], p[2], p[3]];
      }
    }
  }

  /** An input that does not start with the encoding of any scalar value
      (an overlong form, a surrogate, a sequence cut short or a bad
      continuation octet) decodes to (RuneError, 1). */
  lemma DecodeInvalidStart(p: seq<Byte>)
    requires |p| > 0
    requires forall r :: IsScalar(r) && |EncodeRune(r)| <= |p| ==> p[..|EncodeRune(r)|] != EncodeRune(r)
    ensures DecodeRune(p) == (RuneError, 1)
  {
    DecodeRuneSound(p);
  }

  /** Round trip: for scalar values, decoding the encoding returns the runes. */
  lemma {:induction false} DecodeEncodeAll(rs: seq<int>)
    requires AllScalar(rs)
    ensures Decode(EncodeAll(rs)) == rs
  {
    if |rs| > 0 {
      var head := EncodeRune(rs[0]);
      var tail := EncodeAll(rs[1..]);
      DecodeEncodeRune(rs[0], tail);
      assert (head + tail)[|head|..] == tail;
      DecodeEncodeAll(rs[1..]);
    }
  }

  /** encodeRunes: first sums RuneLen into the buffer size, then writes each
      rune's encoding at the running offset. Every rune must be a scalar
      value. For any other value RuneLen is -1: a negative sum makes the
      allocation panic (main.go:118), and otherwise the buffer is too short
      and a write of EncodeRune (main.go:121) goes out of range. */
  method EncodeRunes(rs: seq<int>) returns (bs: seq<Byte>)
    requires AllScalar(rs)
    ensures |bs| == SumRuneLen(rs)
    ensures Decode(bs) == rs
  {
    var n := 0;
    var j := 0;
    while j < |rs|
      invariant 0 <= j <= |rs|
      invariant n == SumRuneLen(rs[..j])
    {
      EncodeAllAppend(rs[..j], rs[j]);
      assert rs[..j + 1] == rs[..j] + [rs[j]];
      n := n + RuneLen(rs[j]);
      j := j + 1;
    }
    assert rs[..j] == rs;
    EncodeAllLength(rs);
    bs := seq(n, _ => 0);
    var i := 0;
    j := 0;
    while j < |rs|
      invariant 0 <= j <= |rs|
      invariant |bs| == n
      invariant i == |EncodeAll(rs[..j])|
      invariant i + |EncodeAll(rs[j..])| == n
      invariant bs[..i] == EncodeAll(rs[..j])
    {
      var enc := EncodeRune(rs[j]);
      assert EncodeAll(rs[j..]) == enc + EncodeAll(rs[j + 1..]);
      EncodeAllAppend(rs[..j], rs[j]);
      assert rs[..j + 1] == rs[..j] + [rs[j]];
      bs := bs[..i] + enc + bs[i + |enc|..];
      i := i + |enc|;
      j := j + 1;
    }
    assert rs[..j] == rs;
    assert bs == bs[..i];
    DecodeEncodeAll(rs);
  }
}
