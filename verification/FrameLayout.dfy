/**
 The wire format of frames, byte by byte, and exactly which messages, headers and datagrams
 are accepted. The codec's round trips hold for any layout; this says which one it is.
 */
module FrameLayout {
  import opened Wrappers
  import opened ByteCodec
  import opened FrameCodec
  import PeerTranscript

  /** The largest payload of each message, by its number from 1 to 37. */
  const PAYLOAD_BOUNDS: seq<nat> := [
    256, 128, 256, 16, 32_768, 8_192, 160, 32, 65_538, 16,
    1_024, 96, 384, 32, 16_384, 16_384, 16_384, 16_384, 16_384, 16_384,
    16_384, 65_600, 0, 96, 1_024, 512, 256, 16_384, 160, 83,
    1_024, 256, 65_539, 65_550, 65_549, 65_549, 1_037]

  lemma BoundsAreTheTable(id: MessageId)
    ensures |PAYLOAD_BOUNDS| == 37 && MaxPayload(id) == PAYLOAD_BOUNDS[id - 1]
  {
  }

  /** The messages that are carried as they are. */
  lemma OpaqueMessages(id: MessageId)
    ensures IsOpaque(id) <==> id in {15, 16, 17, 18, 19, 20, 21, 22, 24, 28}
  {
  }

  /** A slice read as a big-endian number. */
  function At(s: Bytes, from: nat, to: nat): nat
    requires from <= to <= |s|
  {
    FromBigEndian(s[from..to])
  }

  // ---------------------------------------------------------------------------
  // Datagrams
  // ---------------------------------------------------------------------------

  /** Tunnel, session, family, sixteen address bytes, port and payload, in this order. */
  ghost predicate UdpLayout(s: Bytes, d: Datagram) {
    && |s| == 31 + |d.payload|
    && At(s, 0, 4) == d.tunnel && At(s, 4, 12) == d.session && At(s, 29, 31) == d.source.port
    && s[31..] == d.payload
    && match d.source
       case V4(octets, _) => s[12] == 4 && s[13..17] == octets && forall i | 17 <= i < 29 :: s[i] == 0
       case V6(octets, _) => s[12] == 6 && s[13..29] == octets
  }

  /** A datagram is encoded exactly when its tunnel and session are set, in the layout above. */
  lemma UdpEncodesIff(d: Datagram)
    ensures EncodeUdp(d).Ok? <==> d.tunnel != 0 && d.session != 0
    ensures EncodeUdp(d).Ok? ==> UdpLayout(EncodeUdp(d).value, d)
  {
    hide BigEndian, FromBigEndian;
    if EncodeUdp(d).Ok? {
      var s, a := EncodeUdp(d).value, AddressBytes(d.source);
      Widths();
      BigEndianRoundTrip(d.tunnel, 4);
      BigEndianRoundTrip(d.session, 8);
      BigEndianRoundTrip(d.source.port, 2);
      assert s[0..4] == BigEndian(d.tunnel, 4) && s[4..12] == BigEndian(d.session, 8);
      assert s[12..31] == a && a[17..19] == BigEndian(d.source.port, 2) && s[29..31] == a[17..19];
      match d.source {
        case V4(octets, _) =>
          assert s[13..17] == a[1..5] == octets;
          assert forall i | 17 <= i < 29 :: s[i] == a[i - 12] == Zeros(12)[i - 17];
        case V6(octets, _) => assert s[13..29] == a[1..17] == octets;
      }
    }
  }

  /** A payload is a datagram exactly when it is the layout of one that can be encoded. */
  lemma UdpDecodesIff(s: Bytes)
    ensures DecodeUdp(s).Ok? <==>
      && 31 <= |s| <= 31 + MAX_UDP_PAYLOAD_BYTES && At(s, 0, 4) != 0 && At(s, 4, 12) != 0
      && (s[12] == 6 || (s[12] == 4 && forall i | 17 <= i < 29 :: s[i] == 0))
    ensures DecodeUdp(s).Ok? ==> UdpLayout(s, DecodeUdp(s).value)
  {
    hide FromBigEndian;
    if |s| >= 31 {
      var a := s[12..31];
      ZeroSlice(s, 17, 29);
      SliceOfSlice(s, 12, 31, 5, 17);
      SliceOfSlice(s, 12, 31, 17, 19);
      SliceOfSlice(s, 12, 31, 1, 5);
      SliceOfSlice(s, 12, 31, 1, 17);
    }
  }

  /** Why a datagram is refused: it is too long, or malformed. */
  lemma UdpRefusedBecause(s: Bytes, d: Datagram)
    ensures DecodeUdp(s).Err? ==>
      DecodeUdp(s) == Err(if |s| > 65_538 then MessagePayloadTooLarge(9, |s|, 65_538) else MalformedPayload(9))
    ensures EncodeUdp(d).Err? ==> EncodeUdp(d) == Err(MalformedPayload(9))
  {
    hide FromBigEndian, DecodeAddress;
  }

  lemma SliceOfSlice(s: Bytes, from: nat, to: nat, i: nat, j: nat)
    requires from <= to <= |s| && i <= j <= to - from
    ensures s[from..to][i..j] == s[from + i..from + j]
  {
    var x, y := s[from..to][i..j], s[from + i..from + j];
    assert |x| == |y|;
    forall k | 0 <= k < |x| ensures x[k] == y[k] {
      assert x[k] == s[from..to][i + k] == s[from + i + k];
    }
  }

  lemma ZeroSlice(s: Bytes, from: nat, to: nat)
    requires from <= to <= |s|
    ensures s[from..to] == Zeros(to - from) <==> forall i | from <= i < to :: s[i] == 0
  {
    var zeros := Zeros(to - from);
    if s[from..to] == zeros {
      forall i | from <= i < to ensures s[i] == 0 {
        assert s[from..to][i - from] == zeros[i - from];
      }
    }
  }

  // ---------------------------------------------------------------------------
  // Headers
  // ---------------------------------------------------------------------------

  /** Sixteen bytes: "RSGO", version, message, flags and payload length. */
  ghost predicate HeaderLayout(s: Bytes, h: Header) {
    && |s| >= 16 && s[0..4] == [82, 83, 71, 79]
    && At(s, 4, 6) == h.version.major && At(s, 6, 8) == h.version.minor && At(s, 8, 10) == h.id
    && At(s, 10, 12) == h.flags && At(s, 12, 16) == h.length
  }

  /** A header is accepted exactly when it is well formed and its length is within both bounds. */
  lemma HeaderAcceptedIff(max: nat, input: Bytes)
    ensures var r := InspectHeader(max, input);
      && (r == Ok(None) <==> |input| < 16)
      && (r.Ok? && r.value.Some? ==> HeaderLayout(input, r.value.value))
      && (r.Ok? && r.value.Some? <==>
            && |input| >= 16 && input[0..4] == [82, 83, 71, 79]
            && 1 <= At(input, 8, 10) <= 37 && At(input, 10, 12) == 0
            && At(input, 12, 16) <= max && At(input, 12, 16) <= PAYLOAD_BOUNDS[At(input, 8, 10) - 1])
  {
    hide FromBigEndian, MaxPayload;
    if |input| >= 16 && 1 <= At(input, 8, 10) <= 37 {
      BoundsAreTheTable(At(input, 8, 10));
    }
  }

  /** Why a header is refused: the first thing that is wrong with it. */
  lemma HeaderRefusedBecause(max: nat, input: Bytes)
    requires |input| >= 16 && InspectHeader(max, input).Err?
    ensures var id, length := At(input, 8, 10), At(input, 12, 16);
      InspectHeader(max, input) == Err(
        if input[0..4] != [82, 83, 71, 79] then InvalidMagic
        else if !(1 <= id <= 37) then UnknownMessage(id)
        else if At(input, 10, 12) != 0 then UnsupportedFlags(At(input, 10, 12))
        else if length > max then PayloadTooLarge(length, max)
        else MessagePayloadTooLarge(id, length, PAYLOAD_BOUNDS[id - 1]))
  {
    hide FromBigEndian, MaxPayload;
    if 1 <= At(input, 8, 10) <= 37 {
      BoundsAreTheTable(At(input, 8, 10));
    }
  }

  /** A frame is encoded exactly when it has no flags and its payload exists and is within both bounds. */
  lemma FrameEncodesIff<V>(max: nat, pc: Postcard<V>, f: Frame<V>)
    ensures var payload := EncodePayload(pc, f.message);
      Encode(max, pc, f).Ok? <==>
        f.flags == 0 && payload.Ok? && |payload.value| <= max && |payload.value| <= PAYLOAD_BOUNDS[IdOf(f.message) - 1]
  {
    BoundsAreTheTable(IdOf(f.message));
    hide MaxPayload, EncodePayload, HeaderBytes, IdOf;
  }

  /** Why a frame is not encoded: the first thing that is wrong with it. */
  lemma FrameRefusedBecause<V>(max: nat, pc: Postcard<V>, f: Frame<V>)
    requires Encode(max, pc, f).Err?
    ensures var id, payload := IdOf(f.message), EncodePayload(pc, f.message);
      Encode(max, pc, f).error ==
        if f.flags != 0 then UnsupportedFlags(f.flags)
        else if payload.Err? then payload.error
        else if |payload.value| > max then PayloadTooLarge(|payload.value|, max)
        else MessagePayloadTooLarge(id, |payload.value|, PAYLOAD_BOUNDS[id - 1])
  {
    BoundsAreTheTable(IdOf(f.message));
    hide MaxPayload, EncodePayload, HeaderBytes, IdOf;
  }

  /** An encoded frame is its header, in the layout above, and its payload. */
  lemma FrameLayoutIs<V>(max: nat, pc: Postcard<V>, f: Frame<V>)
    requires Encode(max, pc, f).Ok?
    ensures var s, payload := Encode(max, pc, f).value, EncodePayload(pc, f.message).value;
      && |s| == 16 + |payload| && s[16..] == payload
      && HeaderLayout(s, Header(f.version, IdOf(f.message), f.flags, |payload|))
  {
    hide MaxPayload, EncodePayload, HeaderBytes, InspectHeader, HeaderLayout;
    var s, payload := Encode(max, pc, f).value, EncodePayload(pc, f.message).value;
    HeaderRoundTrip(max, f.version, IdOf(f.message), |payload|, payload);
    HeaderAcceptedIff(max, s);
  }

  // ---------------------------------------------------------------------------
  // Decoders
  // ---------------------------------------------------------------------------

  /**
   The exact decoder reports truncation exactly when the stream decoder would wait for more,
   with the number of bytes it waits for, and trailing bytes by what the other leaves.
   */
  lemma ExactRefusals<V>(max: nat, pc: Postcard<V>, input: Bytes)
    ensures var exact, stream := DecodeExact(max, pc, input), Decode(max, pc, input);
      && (stream == Ok(None) <==> exact.Err? && exact.error.Truncated?)
      && (stream == Ok(None) ==>
            var needed := 16 + (if |input| < 16 then 0 else At(input, 12, 16));
            |input| < needed && exact == Err(Truncated(needed, |input|)))
      && (stream.Ok? && stream.value.Some? && stream.value.value.rest != [] ==>
            exact == Err(TrailingBytes(|stream.value.value.rest|)))
      && (stream.Err? ==> exact.Err? && (exact == Err(stream.error) || exact.error.TrailingBytes?))
  {
    hide DecodePayload, MaxPayload, FromBigEndian, ValidateLength;
    DecodeErrors(max, pc, input);
    var h := InspectHeader(max, input);
    if h.Ok? && h.value.Some? && |input| == HEADER_LEN + h.value.value.length {
      assert input[HEADER_LEN..|input|] == input[HEADER_LEN..];
    }
  }

  /** No inspection and no payload ever reports truncation. */
  lemma DecodeErrors<V>(max: nat, pc: Postcard<V>, input: Bytes)
    ensures var r := InspectHeader(max, input); r.Err? ==> !r.error.Truncated? && !r.error.TrailingBytes?
    ensures forall id: MessageId, s: Bytes ::
      DecodePayload(pc, id, s).Err? ==> !DecodePayload(pc, id, s).error.Truncated?
  {
    hide FromBigEndian, MaxPayload, DecodeAddress, IsOpaque;
  }

  /** Decoding stops only where the unread bytes hold no whole frame, or a refused one. */
  lemma {:induction false} DrainStops<V>(max: nat, pc: Postcard<V>, s: Stream<V>)
    requires s.error.None?
    ensures var end := Drain(max, pc, s);
      Decode(max, pc, end.buffer) == match end.error case None => Ok(None) case Some(e) => Err(e)
    ensures s.frames <= Drain(max, pc, s).frames
    decreases |s.buffer|
  {
    hide Decode;
    DecodeStable(max, pc, s.buffer, []);
    var r := Decode(max, pc, s.buffer);
    if r.Ok? && r.value.Some? {
      DrainStops(max, pc, Stream(s.frames + [r.value.value.frame], None, r.value.value.rest));
    }
  }

  /** A record that the library cannot serialise, and only that, overflows. */
  lemma PayloadEncodesIff<V>(pc: Postcard<V>, m: Message<V>)
    ensures EncodePayload(pc, m).Ok? <==>
      match m
      case UdpDatagram(d) => d.tunnel != 0 && d.session != 0
      case Opaque(_, _) => true
      case Record(id, v) => pc.serialize(id, v).Some?
    ensures m.Opaque? ==> EncodePayload(pc, m) == Ok(m.bytes)
  {
  }
}
