/** Choosing a display mode and a bitrate
    (apps/desktop/src-tauri/src/host_protocol.rs:27-49 and 322-421). */
module DisplayModes {
  import opened Wrappers
  import opened Words
  import opened Arithmetic
  import opened Payloads
  import opened Negotiation

  datatype Mode = Mode(width: u16, height: u16) {
    function Area(): nat { width * height }
  }

  const NEGOTIATED_LANDSCAPE_MODES: seq<Mode> := [
    Mode(2732, 2048), Mode(2560, 1600), Mode(2560, 1440), Mode(2048, 1536), Mode(1920, 1200), Mode(1920, 1080),
    Mode(1600, 1200), Mode(1366, 768), Mode(1280, 800), Mode(1280, 720), Mode(1024, 768), Mode(1024, 640),
    Mode(960, 600), Mode(960, 540), Mode(800, 600), Mode(800, 500), Mode(640, 480), Mode(640, 400)]

  datatype Ordering = Less | Equal | Greater

  function Cmp(a: int, b: int): Ordering { if a < b then Less else if a == b then Equal else Greater }

  /** How far a mode's aspect ratio is from the requested one, times the
      requested height and the mode's height. */
  function AspectDelta(m: Mode, requested: Mode): nat {
    AbsDiff(m.width * requested.height, requested.width * m.height)
  }

  /** Compare delta/height by cross-multiplication, then prefer larger areas. */
  function CompareModeFit(left: Mode, right: Mode, requested: Mode): Ordering {
    var byAspect := Cmp(AspectDelta(left, requested) * right.height, AspectDelta(right, requested) * left.height);
    if byAspect.Equal? then Cmp(right.Area(), left.Area()) else byAspect
  }

  predicate Fits(m: Mode, requested: Mode, maximum: Mode) {
    && (m.width >= m.height) == (requested.width >= requested.height)
    && m.width <= requested.width && m.height <= requested.height
    && m.width <= maximum.width && m.height <= maximum.height
  }

  /** `min_by` over the fitting modes: the first of the least. */
  function BestFit(table: seq<Mode>, requested: Mode, maximum: Mode): Option<Mode>
    decreases |table|
  {
    if table == [] then None else
    var before := BestFit(table[..|table| - 1], requested, maximum);
    var m := table[|table| - 1];
    if !Fits(m, requested, maximum) then before
    else if before.None? then Some(m)
    else if CompareModeFit(before.value, m, requested).Greater? then Some(m)
    else before
  }

  datatype ConfigError = NoModeFits | NoH264 | RefreshTooLow | BadConfig

  function SelectBoundedDimensions(table: seq<Mode>, requested: Mode, maximum: Mode): Result<Mode, ConfigError> {
    if requested.width <= maximum.width && requested.height <= maximum.height then Ok(requested) else
    match BestFit(table, requested, maximum)
    case None => Err(NoModeFits)
    case Some(m) => Ok(m)
  }

  // ---- The comparison ------------------------------------------------------------------

  ghost predicate PositiveHeights(table: seq<Mode>) {
    forall m :: m in table ==> m.height > 0
  }

  /** Nothing in the comparison overflows `u64`. */
  lemma ComparisonFitsU64(left: Mode, right: Mode, requested: Mode)
    ensures 0 <= left.width * requested.height <= U64_MAX && 0 <= requested.width * left.height <= U64_MAX
    ensures AspectDelta(left, requested) * right.height <= U64_MAX
    ensures left.Area() <= U64_MAX
  {
    ProductBound(left.width, requested.height, U16_MAX, U16_MAX);
    ProductBound(requested.width, left.height, U16_MAX, U16_MAX);
    ProductBound(left.width, left.height, U16_MAX, U16_MAX);
    ProductBound(AspectDelta(left, requested), right.height, U16_MAX * U16_MAX, U16_MAX);
  }

  /** a/b <= c/d and c/d <= e/f give a/f <= e/b, strictly if either is. */
  lemma CrossTransitive(a: int, b: int, c: int, d: int, e: int, f: int)
    requires a >= 0 && c >= 0 && e >= 0 && b > 0 && d > 0 && f > 0
    requires a * d <= c * b && c * f <= e * d
    ensures a * f <= e * b
    ensures a * d < c * b || c * f < e * d ==> a * f < e * b
    ensures a * d == c * b && c * f == e * d ==> a * f == e * b
  {
    ScaleBy(a * d, c * b, f);
    ScaleBy(c * f, e * d, b);
    assert a * d * f == (a * f) * d;
    assert c * b * f == c * f * b;
    assert e * d * b == (e * b) * d;
    Unscale(a * f, e * b, d);
  }

  /** Over modes of positive height the comparison is a total preorder. */
  lemma FitIsTotalPreorder(a: Mode, b: Mode, c: Mode, requested: Mode)
    requires a.height > 0 && b.height > 0 && c.height > 0
    ensures CompareModeFit(a, a, requested).Equal?
    ensures CompareModeFit(a, b, requested).Greater? <==> CompareModeFit(b, a, requested).Less?
    ensures !CompareModeFit(a, b, requested).Greater? && !CompareModeFit(b, c, requested).Greater? ==>
      !CompareModeFit(a, c, requested).Greater?
  {
    var x, y, z := AspectDelta(a, requested), AspectDelta(b, requested), AspectDelta(c, requested);
    if !CompareModeFit(a, b, requested).Greater? && !CompareModeFit(b, c, requested).Greater? {
      CrossTransitive(x, a.height, y, b.height, z, c.height);
    }
  }

  function Ratio(m: Mode): real
    requires m.height > 0
  {
    m.width as real / m.height as real
  }

  /** How far the mode's aspect ratio is from the requested one. */
  function AspectError(m: Mode, requested: Mode): real
    requires m.height > 0 && requested.height > 0
  {
    if Ratio(m) >= Ratio(requested) then Ratio(m) - Ratio(requested) else Ratio(requested) - Ratio(m)
  }

  lemma DeltaIsScaledError(m: Mode, requested: Mode)
    requires m.height > 0 && requested.height > 0
    ensures AspectDelta(m, requested) as real == AspectError(m, requested) * (m.height as real * requested.height as real)
  {
    var w, h, rw, rh := m.width as real, m.height as real, requested.width as real, requested.height as real;
    assert Ratio(m) * h == w && Ratio(requested) * rh == rw;
    assert Ratio(m) * (h * rh) == w * rh && Ratio(requested) * (h * rh) == rw * h;
    assert (Ratio(m) - Ratio(requested)) * (h * rh) == w * rh - rw * h;
    assert (m.width * requested.height) as real == w * rh && (requested.width * m.height) as real == rw * h;
    SameSign(Ratio(m), Ratio(requested), h * rh);
  }

  lemma SameSign(x: real, y: real, k: real)
    requires k > 0.0
    ensures x >= y <==> x * k >= y * k
    ensures x == y <==> x * k == y * k
  {
    assert (x - y) * k == x * k - y * k;
    if x >= y { assert (x - y) * k >= 0.0; } else { assert (y - x) * k > 0.0; }
    if x > y { assert (x - y) * k > 0.0; }
  }

  /** The cross-multiplied comparison is the comparison of the exact aspect-ratio
      errors, and on a tie the one of areas, the larger first. */
  lemma ComparisonIsExact(left: Mode, right: Mode, requested: Mode)
    requires left.height > 0 && right.height > 0 && requested.height > 0
    ensures var (l, r) := (AspectError(left, requested), AspectError(right, requested));
      && (CompareModeFit(left, right, requested).Less? <==> l < r || (l == r && left.Area() > right.Area()))
      && (CompareModeFit(left, right, requested).Equal? <==> l == r && left.Area() == right.Area())
  {
    hide AspectDelta, AspectError, Ratio, Mode.Area;
    var l, r := AspectError(left, requested), AspectError(right, requested);
    DeltaIsScaledError(left, requested);
    DeltaIsScaledError(right, requested);
    ScaledErrors(AspectDelta(left, requested), AspectDelta(right, requested), l, r, left.height, right.height, requested.height);
  }

  lemma ScaledErrors(x: nat, y: nat, l: real, r: real, a: nat, b: nat, c: nat)
    requires a > 0 && b > 0 && c > 0
    requires x as real == l * (a as real * c as real) && y as real == r * (b as real * c as real)
    ensures x * b < y * a <==> l < r
    ensures x * b == y * a <==> l == r
  {
    var u, v, w := a as real, b as real, c as real;
    Regroup(l, u, v, w);
    Regroup(r, v, u, w);
    assert (x * b) as real == x as real * v && (y * a) as real == y as real * u;
    assert v * u * w == u * v * w;
    SameSign(l, r, u * v * w);
  }

  lemma Regroup(x: real, a: real, b: real, c: real)
    ensures x * (a * c) * b == x * (a * b * c)
  {
    assert (a * c) * b == a * b * c;
  }

  // ---- The choice ----------------------------------------------------------------------

  /** The least aspect error of all fitting modes, and the largest area among
      the modes that share it. */
  ghost predicate Optimal(chosen: Mode, table: seq<Mode>, requested: Mode, maximum: Mode) {
    && chosen in table && Fits(chosen, requested, maximum)
    && (forall m :: m in table && Fits(m, requested, maximum) ==>
          && AspectDelta(chosen, requested) * m.height <= AspectDelta(m, requested) * chosen.height
          && (AspectDelta(chosen, requested) * m.height == AspectDelta(m, requested) * chosen.height ==>
                m.Area() <= chosen.Area()))
  }

  ghost predicate Least(chosen: Mode, table: seq<Mode>, requested: Mode, maximum: Mode) {
    && chosen in table && Fits(chosen, requested, maximum)
    && (forall m :: m in table && Fits(m, requested, maximum) ==> !CompareModeFit(chosen, m, requested).Greater?)
  }

  lemma {:induction false} BestFitIsLeast(table: seq<Mode>, requested: Mode, maximum: Mode)
    requires PositiveHeights(table)
    ensures BestFit(table, requested, maximum).None? <==> forall m :: m in table ==> !Fits(m, requested, maximum)
    ensures BestFit(table, requested, maximum).Some? ==>
      Least(BestFit(table, requested, maximum).value, table, requested, maximum)
    decreases |table|
  {
    hide CompareModeFit;
    if table != [] {
      var front, m := table[..|table| - 1], table[|table| - 1];
      assert table == front + [m];
      BestFitIsLeast(front, requested, maximum);
      var before := BestFit(front, requested, maximum);
      FitIsTotalPreorder(m, m, m, requested);
      if before.Some? {
        FitIsTotalPreorder(before.value, m, m, requested);
        if CompareModeFit(before.value, m, requested).Greater? {
          forall other | other in front && Fits(other, requested, maximum)
            ensures !CompareModeFit(m, other, requested).Greater?
          {
            FitIsTotalPreorder(m, before.value, other, requested);
          }
        }
      }
    }
  }

  /** Among equally good modes the first in the table is taken. */
  lemma {:induction false} BestFitIsFirst(table: seq<Mode>, requested: Mode, maximum: Mode) returns (at: nat)
    requires PositiveHeights(table) && BestFit(table, requested, maximum).Some?
    ensures at < |table| && table[at] == BestFit(table, requested, maximum).value
    ensures forall j :: 0 <= j < at && Fits(table[j], requested, maximum) ==>
      CompareModeFit(table[j], table[at], requested).Greater?
    decreases |table|
  {
    hide CompareModeFit;
    var front, m := table[..|table| - 1], table[|table| - 1];
    assert table == front + [m];
    var before := BestFit(front, requested, maximum);
    BestFitIsLeast(front, requested, maximum);
    if BestFit(table, requested, maximum) == before {
      at := BestFitIsFirst(front, requested, maximum);
    } else {
      at := |front|;
      forall j | 0 <= j < at && Fits(table[j], requested, maximum)
        ensures CompareModeFit(table[j], m, requested).Greater?
      {
        assert table[j] in front;
        FitIsTotalPreorder(before.value, table[j], m, requested);
      }
    }
  }

  /** The selection, for any table of positive heights: the request itself when
      it is within bounds; otherwise a mode of the table that fits both bounds,
      keeps the orientation class, and is optimal; and a failure exactly when
      no mode fits. */
  lemma SelectionIsOptimal(table: seq<Mode>, requested: Mode, maximum: Mode)
    requires PositiveHeights(table)
    ensures var r := SelectBoundedDimensions(table, requested, maximum);
      if requested.width <= maximum.width && requested.height <= maximum.height then r == Ok(requested)
      else if r.Ok? then Optimal(r.value, table, requested, maximum)
      else forall m :: m in table ==> !Fits(m, requested, maximum)
  {
    BestFitIsLeast(table, requested, maximum);
  }

  /** With the built-in ladder a clamped request can fail in one way only: it
      is portrait (the ladder has landscape modes only), or the smaller of the
      two bounds is below the smallest mode. */
  lemma WhenNothingFits(requested: Mode, maximum: Mode)
    ensures SelectBoundedDimensions(NEGOTIATED_LANDSCAPE_MODES, requested, maximum).Err? <==>
      && (requested.width > maximum.width || requested.height > maximum.height)
      && (|| requested.width < requested.height
          || Min(requested.width, maximum.width) < 640
          || Min(requested.height, maximum.height) < 400)
  {
    LadderIsLandscape();
    SelectionIsOptimal(NEGOTIATED_LANDSCAPE_MODES, requested, maximum);
    assert NEGOTIATED_LANDSCAPE_MODES[17] == Mode(640, 400);
  }

  lemma LadderIsLandscape()
    ensures forall m :: m in NEGOTIATED_LANDSCAPE_MODES ==> m.width >= m.height >= 400 && m.width >= 640
  {
  }

  // ---- The configuration ----------------------------------------------------------------

  /** Saturating `u64` product. */
  function SatMul64(a: nat, b: nat): u64 {
    ProductBound(a, b, a, b);
    Min(a * b, U64_MAX)
  }

  function TargetH264Bitrate(width: u16, height: u16, refreshMillihz: u32): (kbps: u32)
    ensures 4_000 <= kbps <= 40_000
  {
    var pixelsPerSecond := SatMul64(SatMul64(width, height), refreshMillihz) / 1_000;
    var estimate := SatMul64(pixelsPerSecond, 12) / 100_000;
    var fitted := if estimate > U32_MAX then U32_MAX else estimate;
    if fitted < 4_000 then 4_000 else if fitted > 40_000 then 40_000 else fitted
  }

  /** The saturating products never saturate: the target is twelve hundredths of
      a bit per pixel, in kilobits per second, clamped. */
  lemma BitrateIsExact(width: u16, height: u16, refreshMillihz: u32)
    ensures var estimate := width * height * refreshMillihz / 1_000 * 12 / 100_000;
      TargetH264Bitrate(width, height, refreshMillihz) == Max(4_000, Min(40_000, estimate))
  {
    ProductBound(width, height, U16_MAX, U16_MAX);
    ProductBound(width * height, refreshMillihz, U16_MAX * U16_MAX, U32_MAX);
  }

  datatype RawHost = HostConfig(width: u16, height: u16, refreshHz: u16)

  /** `HostProtocolConfig::new`: non-zero size, 30 or 60 Hz. */
  type HostConfiguration = h: RawHost | h.width > 0 && h.height > 0 && (h.refreshHz == 30 || h.refreshHz == 60)
    witness HostConfig(1, 1, 30)

  function SelectDisplayConfig(requested: HostConfiguration, a: Agreement): Result<DisplayConfigPayload, ConfigError> {
    var c := a.capabilities;
    if !HasBit(c.codecs, 0) then Err(NoH264) else
    var size :- SelectBoundedDimensions(NEGOTIATED_LANDSCAPE_MODES, Mode(requested.width, requested.height),
                                        Mode(c.maxWidth, c.maxHeight));
    var wanted := requested.refreshHz * 1_000;
    if c.maxRefreshMillihz < wanted && !(requested.refreshHz == 60 && c.maxRefreshMillihz >= 30_000)
    then Err(RefreshTooLow) else
    var refresh := if c.maxRefreshMillihz >= wanted then wanted else 30_000;
    var bitrate := Min(TargetH264Bitrate(size.width, size.height, refresh), c.maxBitrateKbps);
    var d := DisplayConfigPayload(size.width, size.height, refresh, bitrate, H264, H264Main);
    if d.Valid() then Ok(d) else Err(BadConfig)
  }

  /** A selected configuration is valid, within the agreed limits and the
      request, uses the shared H.264 codec, and runs at 30 or 60 Hz. */
  lemma ConfigIsWithinLimits(requested: HostConfiguration, a: Agreement)
    requires SelectDisplayConfig(requested, a).Ok?
    ensures var d := SelectDisplayConfig(requested, a).value;
      && d.Valid() && d.codec == H264 && HasBit(a.capabilities.codecs, 0)
      && AgreedLimits(a.capabilities).Admits(d.width, d.height, d.refreshMillihz, d.bitrateKbps)
      && d.width <= requested.width && d.height <= requested.height
      && (d.refreshMillihz == 30_000 || d.refreshMillihz == requested.refreshHz * 1_000)
      && 0 < d.bitrateKbps <= 40_000
  {
    SelectionIsWithin(Mode(requested.width, requested.height),
                      Mode(a.capabilities.maxWidth, a.capabilities.maxHeight));
    hide SelectBoundedDimensions, TargetH264Bitrate, HasBit;
  }

  /** And it is exactly this: the selected size, the requested rate when the
      agreement reaches it and 30 Hz otherwise, and the estimated bitrate up to the
      agreed one. */
  lemma ConfigIsExact(requested: HostConfiguration, a: Agreement)
    requires SelectDisplayConfig(requested, a).Ok?
    ensures var d := SelectDisplayConfig(requested, a).value; var c := a.capabilities;
      var estimate := d.width * d.height * d.refreshMillihz / 1_000 * 12 / 100_000;
      && SelectBoundedDimensions(NEGOTIATED_LANDSCAPE_MODES, Mode(requested.width, requested.height),
                                 Mode(c.maxWidth, c.maxHeight)) == Ok(Mode(d.width, d.height))
      && d.refreshMillihz == (if requested.refreshHz * 1_000 <= c.maxRefreshMillihz then requested.refreshHz * 1_000 else 30_000)
      && d.bitrateKbps == Min(Max(4_000, Min(40_000, estimate)), c.maxBitrateKbps)
      && d.profile == H264Main
  {
    var d := SelectDisplayConfig(requested, a).value;
    BitrateIsExact(d.width, d.height, d.refreshMillihz);
    hide SelectBoundedDimensions, TargetH264Bitrate, HasBit;
  }

  /** Each refusal says which requirement fails first. */
  lemma ConfigErrors(requested: HostConfiguration, a: Agreement)
    ensures var r := SelectDisplayConfig(requested, a); var c := a.capabilities;
      var size := SelectBoundedDimensions(NEGOTIATED_LANDSCAPE_MODES, Mode(requested.width, requested.height),
                                          Mode(c.maxWidth, c.maxHeight));
      && (r == Err(NoH264) <==> !HasBit(c.codecs, 0))
      && (r == Err(NoModeFits) <==> HasBit(c.codecs, 0) && size.Err?)
      && (r == Err(RefreshTooLow) <==> HasBit(c.codecs, 0) && size.Ok? && c.maxRefreshMillihz < 30_000)
  {
    hide TargetH264Bitrate, BestFit, HasBit;
  }

  lemma SelectionIsWithin(requested: Mode, maximum: Mode)
    ensures var r := SelectBoundedDimensions(NEGOTIATED_LANDSCAPE_MODES, requested, maximum);
      r.Ok? ==> r.value.width <= Min(requested.width, maximum.width) && r.value.height <= Min(requested.height, maximum.height)
  {
    LadderIsPositive();
    ChosenFits(NEGOTIATED_LANDSCAPE_MODES, requested, maximum);
  }

  lemma LadderIsPositive()
    ensures PositiveHeights(NEGOTIATED_LANDSCAPE_MODES)
  {
    LadderIsLandscape();
  }

  lemma ChosenFits(table: seq<Mode>, requested: Mode, maximum: Mode)
    requires PositiveHeights(table)
    ensures var r := SelectBoundedDimensions(table, requested, maximum);
      r.Ok? ==> r.value.width <= Min(requested.width, maximum.width) && r.value.height <= Min(requested.height, maximum.height)
  {
    hide SelectBoundedDimensions;
    SelectionIsOptimal(table, requested, maximum);
  }

  /** And a configuration is found exactly when H.264 is shared, a mode fits,
      30 Hz is within reach of the request, and some bitrate is allowed. */
  lemma WhenConfigExists(requested: HostConfiguration, a: Agreement)
    ensures var c := a.capabilities;
      SelectDisplayConfig(requested, a).Ok? <==>
        && HasBit(c.codecs, 0)
        && SelectBoundedDimensions(NEGOTIATED_LANDSCAPE_MODES, Mode(requested.width, requested.height),
                                   Mode(c.maxWidth, c.maxHeight)).Ok?
        && c.maxRefreshMillihz >= 30_000
        && c.maxBitrateKbps > 0
  {
    hide TargetH264Bitrate, SelectBoundedDimensions, Optimal, HasBit;
    SelectedSizeIsPositive(requested, Mode(a.capabilities.maxWidth, a.capabilities.maxHeight));
  }

  lemma SelectedSizeIsPositive(requested: HostConfiguration, maximum: Mode)
    ensures var r := SelectBoundedDimensions(NEGOTIATED_LANDSCAPE_MODES, Mode(requested.width, requested.height), maximum);
      r.Ok? ==> r.value.width > 0 && r.value.height > 0
  {
    LadderIsLandscape();
    SelectionIsOptimal(NEGOTIATED_LANDSCAPE_MODES, Mode(requested.width, requested.height), maximum);
  }
}
