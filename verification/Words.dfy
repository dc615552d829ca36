/** Machine integers and their network-byte-order encoding. */
module Words {

  const U8_MAX := 0xFF
  const U16_MAX := 0xFFFF
  const U32_MAX := 0xFFFF_FFFF
  const U64_MAX := 0xFFFF_FFFF_FFFF_FFFF
  /** A 64-bit host: `usize` is as wide as `u64`. */
  const USIZE_MAX := U64_MAX
  const U128_MAX := 0xFFFF_FFFF_FFFF_FFFF_FFFF_FFFF_FFFF_FFFF

  type u8 = x: int | 0 <= x <= U8_MAX
  type u16 = x: int | 0 <= x <= U16_MAX
  type u32 = x: int | 0 <= x <= U32_MAX
  type u64 = x: int | 0 <= x <= U64_MAX
  type usize = x: int | 0 <= x <= USIZE_MAX

  type bytes = seq<u8>

  /** `u64::saturating_add`. */
  function SatAdd64(a: u64, b: nat): u64 {
    if a + b > U64_MAX then U64_MAX else a + b
  }

  /** `abs_diff`. */
  function AbsDiff(a: int, b: int): nat { if a >= b then a - b else b - a }

  /** 256 to the power `width`: one more than the largest `width`-byte value. */
  function Range(width: nat): nat
  {
    if width == 0 then 1 else 256 * Range(width - 1)
  }

  lemma Ranges()
    ensures Range(1) == U8_MAX + 1 && Range(2) == U16_MAX + 1
    ensures Range(4) == U32_MAX + 1 && Range(8) == U64_MAX + 1
  {
    assert Range(3) == 256 * Range(2);
    assert Range(5) == 256 * Range(4);
    assert Range(6) == 256 * Range(5);
    assert Range(7) == 256 * Range(6);
  }

  /** The `width` bytes of `value`, most significant first (`to_be_bytes`). */
  function ToBe(width: nat, value: nat): (b: bytes)
    requires value < Range(width)
    ensures |b| == width
  {
    if width == 0 then [] else ToBe(width - 1, value / 256) + [value % 256]
  }

  /** The value spelled by `b`, most significant byte first (`from_be_bytes`). */
  function FromBe(b: bytes): (v: nat)
    ensures v < Range(|b|)
  {
    if |b| == 0 then 0 else 256 * FromBe(b[..|b| - 1]) + b[|b| - 1]
  }

  lemma {:induction false} FromToBe(width: nat, value: nat)
    requires value < Range(width)
    ensures FromBe(ToBe(width, value)) == value
  {
    if width > 0 {
      FromToBe(width - 1, value / 256);
      var b := ToBe(width, value);
      assert b[..|b| - 1] == ToBe(width - 1, value / 256);
    }
  }

  lemma {:induction false} ToFromBe(b: bytes)
    ensures ToBe(|b|, FromBe(b)) == b
  {
    if |b| > 0 {
      ToFromBe(b[..|b| - 1]);
      assert b == b[..|b| - 1] + [b[|b| - 1]];
    }
  }

  // ---- Fixed layouts -------------------------------------------------------
  // A payload of fixed-width fields is described by the list of its widths.
  // Encoders append the fields one after the other; decoders read each field
  // at its offset, which is the sum of the widths before it.

  function Width(layout: seq<nat>): nat
  {
    if layout == [] then 0 else layout[0] + Width(layout[1..])
  }

  ghost predicate Fits(layout: seq<nat>, values: seq<nat>)
  {
    |layout| == |values| && forall i :: 0 <= i < |layout| ==> values[i] < Range(layout[i])
  }

  function Pack(layout: seq<nat>, values: seq<nat>): (b: bytes)
    requires Fits(layout, values)
    ensures |b| == Width(layout)
  {
    if layout == [] then []
    else ToBe(layout[0], values[0]) + Pack(layout[1..], values[1..])
  }

  function Unpack(layout: seq<nat>, b: bytes): (values: seq<nat>)
    requires |b| == Width(layout)
    ensures Fits(layout, values)
  {
    if layout == [] then []
    else [FromBe(b[..layout[0]])] + Unpack(layout[1..], b[layout[0]..])
  }

  lemma {:induction false} UnpackPack(layout: seq<nat>, values: seq<nat>)
    requires Fits(layout, values)
    ensures Unpack(layout, Pack(layout, values)) == values
  {
    if layout != [] {
      var b := Pack(layout, values);
      FromToBe(layout[0], values[0]);
      UnpackPack(layout[1..], values[1..]);
      assert b[..layout[0]] == ToBe(layout[0], values[0]);
      assert b[layout[0]..] == Pack(layout[1..], values[1..]);
    }
  }

  lemma {:induction false} PackUnpack(layout: seq<nat>, b: bytes)
    requires |b| == Width(layout)
    ensures Pack(layout, Unpack(layout, b)) == b
  {
    if layout != [] {
      ToFromBe(b[..layout[0]]);
      PackUnpack(layout[1..], b[layout[0]..]);
      var values := Unpack(layout, b);
      assert values[1..] == Unpack(layout[1..], b[layout[0]..]);
      assert b == b[..layout[0]] + b[layout[0]..];
    }
  }

  /** Where field `i` of a layout begins. */
  function OffsetOf(layout: seq<nat>, i: nat): nat
    requires i <= |layout|
  {
    if i == 0 then 0 else layout[0] + OffsetOf(layout[1..], i - 1)
  }

  lemma {:induction false} OffsetWithin(layout: seq<nat>, i: nat)
    requires i < |layout|
    ensures OffsetOf(layout, i) + layout[i] <= Width(layout)
  {
    if i > 0 {
      OffsetWithin(layout[1..], i - 1);
    }
  }

  /** Field `i` of a layout is the big-endian value at the sum of the widths
      before it, which is how the source's decoders address it. */
  lemma {:induction false} FieldAtOffset(layout: seq<nat>, b: bytes, i: nat)
    requires |b| == Width(layout) && i < |layout|
    ensures OffsetOf(layout, i) + layout[i] <= |b|
    ensures Unpack(layout, b)[i] == FromBe(b[OffsetOf(layout, i)..][..layout[i]])
  {
    OffsetWithin(layout, i);
    if i > 0 {
      var tail := b[layout[0]..];
      FieldAtOffset(layout[1..], tail, i - 1);
      assert Unpack(layout, b)[i] == Unpack(layout[1..], tail)[i - 1];
      assert tail[OffsetOf(layout[1..], i - 1)..] == b[OffsetOf(layout, i)..];
    }
  }
}
