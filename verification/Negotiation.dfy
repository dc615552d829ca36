/** Capability negotiation (crates/ladoflow-core/src/negotiation.rs). */
module Negotiation {
  import opened Wrappers
  import opened Words
  import opened Payloads

  datatype NegotiatedCapabilities = NegotiatedCapabilities(
    maxWidth: u16, maxHeight: u16, maxRefreshMillihz: u32, maxBitrateKbps: u32,
    codecs: Mask, input: Mask, features: Mask)

  datatype Agreement = Agreement(protocolVersion: u16, capabilities: NegotiatedCapabilities)

  datatype NegotiationError = MatchingRoles | NoProtocolOverlap | NoCommonCodec

  predicate HasBit(m: Mask, bit: nat)
    requires bit < 3
  {
    (if bit == 0 then m else if bit == 1 then m / 2 else m / 4) % 2 == 1
  }

  /** Bitwise `&` of two masks. */
  function Both(a: Mask, b: Mask): Mask {
    (if HasBit(a, 0) && HasBit(b, 0) then 1 else 0)
    + (if HasBit(a, 1) && HasBit(b, 1) then 2 else 0)
    + (if HasBit(a, 2) && HasBit(b, 2) then 4 else 0)
  }

  function Negotiate(localHello: HelloPayload, local: CapabilitiesPayload,
                     remoteHello: HelloPayload, remote: CapabilitiesPayload): Result<Agreement, NegotiationError> {
    if localHello.role == remoteHello.role then Err(MatchingRoles) else
    var lowest := Max(localHello.minProtocol, remoteHello.minProtocol);
    var highest := Min(localHello.maxProtocol, remoteHello.maxProtocol);
    if lowest > highest then Err(NoProtocolOverlap) else
    var codecs := Both(local.codecs, remote.codecs);
    if codecs == 0 then Err(NoCommonCodec) else
    Ok(Agreement(highest, NegotiatedCapabilities(
      Min(local.maxWidth, remote.maxWidth), Min(local.maxHeight, remote.maxHeight),
      Min(local.maxRefreshMillihz, remote.maxRefreshMillihz), Min(local.maxBitrateKbps, remote.maxBitrateKbps),
      codecs, Both(local.input, remote.input), Both(local.features, remote.features))))
  }

  /** The largest picture size, rate and bitrate of an endpoint or agreement. */
  datatype Limits = Limits(maxWidth: u16, maxHeight: u16, maxRefreshMillihz: u32, maxBitrateKbps: u32) {
    predicate Admits(width: int, height: int, refreshMillihz: int, kbps: int) {
      width <= maxWidth && height <= maxHeight && refreshMillihz <= maxRefreshMillihz && kbps <= maxBitrateKbps
    }
  }

  function LimitsOf(c: CapabilitiesPayload): Limits {
    Limits(c.maxWidth, c.maxHeight, c.maxRefreshMillihz, c.maxBitrateKbps)
  }

  function AgreedLimits(c: NegotiatedCapabilities): Limits {
    Limits(c.maxWidth, c.maxHeight, c.maxRefreshMillihz, c.maxBitrateKbps)
  }

  predicate Speaks(h: HelloPayload, version: int) { h.minProtocol <= version <= h.maxProtocol }

  /** A bit is shared exactly when both masks have it. */
  lemma BothBits(a: Mask, b: Mask, bit: nat)
    requires bit < 3
    ensures HasBit(Both(a, b), bit) <==> HasBit(a, bit) && HasBit(b, bit)
    ensures Both(a, b) == 0 <==> !exists i :: 0 <= i < 3 && HasBit(a, i) && HasBit(b, i)
  {
    var shared := Both(a, b);
    assert HasBit(shared, 0) == (HasBit(a, 0) && HasBit(b, 0));
    assert HasBit(shared, 1) == (HasBit(a, 1) && HasBit(b, 1));
    assert HasBit(shared, 2) == (HasBit(a, 2) && HasBit(b, 2));
  }

  /** Both endpoints reach the same verdict, whichever is local. */
  lemma NegotiationIsSymmetric(ha: HelloPayload, ca: CapabilitiesPayload, hb: HelloPayload, cb: CapabilitiesPayload)
    ensures Negotiate(ha, ca, hb, cb) == Negotiate(hb, cb, ha, ca)
  {
  }

  /** Negotiation succeeds exactly when the roles differ and some version and
      some codec are shared; it then picks the greatest shared version and the
      greatest limits within both, and promises nothing either lacks. */
  lemma NegotiationIsBest(ha: HelloPayload, ca: CapabilitiesPayload, hb: HelloPayload, cb: CapabilitiesPayload)
    ensures Negotiate(ha, ca, hb, cb).Ok? <==>
      && ha.role != hb.role
      && (exists v :: Speaks(ha, v) && Speaks(hb, v))
      && (exists bit :: 0 <= bit < 3 && HasBit(ca.codecs, bit) && HasBit(cb.codecs, bit))
    ensures Negotiate(ha, ca, hb, cb) == Err(MatchingRoles) <==> ha.role == hb.role
    ensures Negotiate(ha, ca, hb, cb) == Err(NoProtocolOverlap) <==>
      ha.role != hb.role && !exists v :: Speaks(ha, v) && Speaks(hb, v)
    ensures Negotiate(ha, ca, hb, cb).Ok? ==>
      var a := Negotiate(ha, ca, hb, cb).value; var c := a.capabilities;
      && Speaks(ha, a.protocolVersion) && Speaks(hb, a.protocolVersion)
      && (forall v :: Speaks(ha, v) && Speaks(hb, v) ==> v <= a.protocolVersion)
      && (forall w, h, r, k ::
            AgreedLimits(c).Admits(w, h, r, k) <==> LimitsOf(ca).Admits(w, h, r, k) && LimitsOf(cb).Admits(w, h, r, k))
      && (forall bit :: 0 <= bit < 3 ==>
            && (HasBit(c.codecs, bit) <==> HasBit(ca.codecs, bit) && HasBit(cb.codecs, bit))
            && (HasBit(c.input, bit) <==> HasBit(ca.input, bit) && HasBit(cb.input, bit))
            && (HasBit(c.features, bit) <==> HasBit(ca.features, bit) && HasBit(cb.features, bit)))
  {
    hide Both, HasBit;
    BothBits(ca.codecs, cb.codecs, 0);
    forall bit | 0 <= bit < 3
      ensures HasBit(Both(ca.codecs, cb.codecs), bit) <==> HasBit(ca.codecs, bit) && HasBit(cb.codecs, bit)
      ensures HasBit(Both(ca.input, cb.input), bit) <==> HasBit(ca.input, bit) && HasBit(cb.input, bit)
      ensures HasBit(Both(ca.features, cb.features), bit) <==> HasBit(ca.features, bit) && HasBit(cb.features, bit)
    {
      BothBits(ca.codecs, cb.codecs, bit);
      BothBits(ca.input, cb.input, bit);
      BothBits(ca.features, cb.features, bit);
    }
    var highest := Min(ha.maxProtocol, hb.maxProtocol);
    assert Max(ha.minProtocol, hb.minProtocol) <= highest ==> Speaks(ha, highest) && Speaks(hb, highest);
  }
}
