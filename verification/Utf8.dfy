/** Protocol strings: Unicode scalar values and their UTF-8 form
    (section 3 of RFC 3629). */
module Utf8 {
  import opened Wrappers
  import opened Words

  type Scalar = c: int | 0 <= c < 0xD800 || 0xE000 <= c <= 0x10FFFF

  type text = seq<Scalar>

  /** The low six bits of `x` as a continuation octet. */
  function Continuation(x: nat): u8 { 0x80 + x % 64 }

  function EncodeScalar(c: Scalar): (b: bytes)
    ensures 1 <= |b| <= 4
  {
    if c < 0x80 then [c]
    else if c < 0x800 then [0xC0 + c / 64, Continuation(c)]
    else if c < 0x10000 then [0xE0 + c / 4096, Continuation(c / 64), Continuation(c)]
    else [0xF0 + c / 262144, Continuation(c / 4096), Continuation(c / 64), Continuation(c)]
  }

  predicate IsContinuation(x: u8) { 0x80 <= x < 0xC0 }

  /** The scalar at the front of `b` and its length in octets; over-long forms,
      surrogates and values above 0x10FFFF are refused. */
  function DecodeScalar(b: bytes): (r: Option<(Scalar, nat)>)
    ensures r.Some? ==> 1 <= r.value.1 <= |b|
  {
    if |b| == 0 then None else
    var b0: int := b[0];
    if b0 < 0x80 then Some((b0, 1))
    else if |b| < 2 || !IsContinuation(b[1]) then None else
    var b1: int := b[1];
    if 0xC2 <= b0 < 0xE0 then Some(((b0 - 0xC0) * 64 + (b1 - 0x80), 2))
    else if |b| < 3 || !IsContinuation(b[2]) then None else
    var b2: int := b[2];
    if 0xE0 <= b0 < 0xF0 then
      var c := (b0 - 0xE0) * 4096 + (b1 - 0x80) * 64 + (b2 - 0x80);
      if c < 0x800 || 0xD800 <= c < 0xE000 then None else Some((c, 3))
    else if |b| < 4 || !IsContinuation(b[3]) then None else
    var b3: int := b[3];
    if 0xF0 <= b0 < 0xF5 then
      var c := (b0 - 0xF0) * 262144 + (b1 - 0x80) * 4096 + (b2 - 0x80) * 64 + (b3 - 0x80);
      if 0x10000 <= c <= 0x10FFFF then Some((c, 4)) else None
    else None
  }

  /** Reading base-64 digits back from the number they spell, and conversely. */
  lemma SixBitDigits(a: nat, b: nat, c: nat)
    requires b < 64 && c < 64
    ensures (a * 64 + c) / 64 == a && (a * 64 + c) % 64 == c
    ensures (a * 4096 + b * 64 + c) / 64 == a * 64 + b
    ensures (a * 4096 + b * 64 + c) / 4096 == a
  {
  }

  lemma SixBitSum(c: nat)
    ensures c == (c / 64) * 64 + c % 64
    ensures c == (c / 4096) * 4096 + (c / 64 % 64) * 64 + c % 64
    ensures c == (c / 262144) * 262144 + (c / 4096 % 64) * 4096 + (c / 64 % 64) * 64 + c % 64
  {
    assert c / 64 / 64 == c / 4096;
    assert c / 4096 / 64 == c / 262144;
  }

  lemma ScalarRoundTrip(c: Scalar, tail: bytes)
    ensures DecodeScalar(EncodeScalar(c) + tail) == Some((c, |EncodeScalar(c)|))
  {
    var e := EncodeScalar(c);
    var b := e + tail;
    SixBitSum(c);
    assert b[0] == e[0];
    if c < 0x80 {
    } else if c < 0x800 {
      assert b[1] == e[1];
    } else if c < 0x10000 {
      assert b[1] == e[1] && b[2] == e[2];
    } else {
      assert b[1] == e[1] && b[2] == e[2] && b[3] == e[3];
    }
  }

  lemma FourDigits(a: nat, b: nat, c: nat, d: nat, x: nat)
    requires b < 64 && c < 64 && d < 64 && x == a * 262144 + b * 4096 + c * 64 + d
    ensures x / 262144 == a && x / 4096 % 64 == b && x / 64 % 64 == c && x % 64 == d
  {
    SixBitDigits(a * 64 + b, c, d);
    SixBitDigits(a, 0, b);
    assert x / 262144 == x / 4096 / 64;
  }

  lemma ScalarCanonical(b: bytes)
    requires DecodeScalar(b).Some?
    ensures var (c, n) := DecodeScalar(b).value; EncodeScalar(c) == b[..n]
  {
    var (c, n) := DecodeScalar(b).value;
    var b0: int := b[0];
    if n == 2 {
      SixBitDigits(b0 - 0xC0, 0, b[1] - 0x80);
      assert b[..n] == [b[0], b[1]];
    } else if n == 3 {
      SixBitDigits(b0 - 0xE0, b[1] - 0x80, b[2] - 0x80);
      assert b[..n] == [b[0], b[1], b[2]];
    } else if n == 4 {
      FourOctetsCanonical(b);
    }
  }

  lemma FourOctetsCanonical(b: bytes)
    requires DecodeScalar(b).Some? && DecodeScalar(b).value.1 == 4
    ensures EncodeScalar(DecodeScalar(b).value.0) == b[..4]
  {
    var c := DecodeScalar(b).value.0;
    var b0: int := b[0];
    FourDigits(b0 - 0xF0, b[1] - 0x80, b[2] - 0x80, b[3] - 0x80, c);
    assert EncodeScalar(c)[3] == b[3];
    assert b[..4] == [b[0], b[1], b[2], b[3]];
  }

  function EncodeText(t: text): bytes {
    if t == [] then [] else EncodeScalar(t[0]) + EncodeText(t[1..])
  }

  function DecodeText(b: bytes): Option<text>
    decreases |b|
  {
    if b == [] then Some([]) else
    match DecodeScalar(b)
    case None => None
    case Some((c, n)) =>
      match DecodeText(b[n..])
      case None => None
      case Some(t) => Some([c] + t)
  }

  lemma {:induction false} TextRoundTrip(t: text)
    ensures DecodeText(EncodeText(t)) == Some(t)
  {
    hide EncodeScalar, DecodeScalar;
    if t != [] {
      ScalarRoundTrip(t[0], EncodeText(t[1..]));
      TextRoundTrip(t[1..]);
      assert EncodeText(t)[|EncodeScalar(t[0])|..] == EncodeText(t[1..]);
      assert t == [t[0]] + t[1..];
    }
  }

  lemma {:induction false} TextCanonical(b: bytes)
    requires DecodeText(b).Some?
    ensures EncodeText(DecodeText(b).value) == b
    decreases |b|
  {
    hide EncodeScalar, DecodeScalar;
    if b != [] {
      var (c, n) := DecodeScalar(b).value;
      ScalarCanonical(b);
      TextCanonical(b[n..]);
      assert DecodeText(b).value[1..] == DecodeText(b[n..]).value;
    }
  }
}
