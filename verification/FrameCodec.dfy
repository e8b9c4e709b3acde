/**
 The control-protocol frame codec: a 16-byte header and a payload. The postcard library
 is an abstract pair of functions; the datagram payload is encoded by hand.
 */
module FrameCodec {
  import opened Wrappers
  import opened ByteCodec
  import PeerTranscript

  type Address = PeerTranscript.Address

  const MAGIC: Bytes := [82, 83, 71, 79] // "RSGO"
  const HEADER_LEN: nat := 16
  const UDP_METADATA_LEN: nat := 31
  const MAX_UDP_PAYLOAD_BYTES: nat := 65_507
  const MAX_RENDEZVOUS_ENVELOPE_BYTES: nat := 16 * 1024
  const MAX_PEER_RELAY_FRAME_BYTES: nat := 65_600
  const MAX_MANAGED_CONFIGURATION_BYTES: nat := 65_536
  const UDP_DATAGRAM: nat := 9

  type MessageId = n: nat | 1 <= n <= 37 witness 1

  function MaxPayload(id: MessageId): (m: nat)
    ensures m <= U32_MAX
  {
    if id == 1 then 256
    else if id == 2 then 128
    else if id == 3 then 256
    else if id == 4 then 16
    else if id == 5 then 32 * 1024
    else if id == 6 then 8 * 1024
    else if id == 7 then 160
    else if id == 8 then 32
    else if id == 9 then UDP_METADATA_LEN + MAX_UDP_PAYLOAD_BYTES
    else if id == 10 then 16
    else if id == 11 then 1024
    else if id == 12 then 96
    else if id == 13 then 384
    else if id == 14 then 32
    else if 15 <= id <= 21 then MAX_RENDEZVOUS_ENVELOPE_BYTES
    else if id == 22 then MAX_PEER_RELAY_FRAME_BYTES
    else if id == 23 then 0
    else if id == 24 then 96
    else if id == 25 then 1024
    else if id == 26 then 512
    else if id == 27 then 256
    else if id == 28 then MAX_RENDEZVOUS_ENVELOPE_BYTES
    else if id == 29 then 160
    else if id == 30 then 83
    else if id == 31 then 1024
    else if id == 32 then 256
    else if id == 33 then MAX_MANAGED_CONFIGURATION_BYTES + 3
    else if id == 34 then MAX_MANAGED_CONFIGURATION_BYTES + 14
    else if id == 35 then MAX_MANAGED_CONFIGURATION_BYTES + 13
    else if id == 36 then MAX_MANAGED_CONFIGURATION_BYTES + 13
    else 1024 + 13
  }

  /** Rendezvous envelopes, relay frames and observation grants are carried as they are. */
  predicate IsOpaque(id: MessageId) {
    15 <= id <= 22 || id == 24 || id == 28
  }

  type UdpPayload = s: Bytes | |s| <= MAX_UDP_PAYLOAD_BYTES

  datatype Datagram = Datagram(tunnel: U32, session: U64, source: Address, payload: UdpPayload)

  /** A message: a datagram, an opaque payload, or a record that postcard serialises. */
  datatype Message<V> =
    | UdpDatagram(datagram: Datagram)
    | Opaque(kind: MessageId, bytes: Bytes)
    | Record(kind: MessageId, value: V)

  /** What the types of the messages guarantee. */
  predicate WellTyped<V>(m: Message<V>) {
    match m
    case UdpDatagram(_) => true
    case Opaque(id, bytes) => IsOpaque(id) && |bytes| <= MaxPayload(id)
    case Record(id, _) => !IsOpaque(id) && id != UDP_DATAGRAM
  }

  function IdOf<V>(m: Message<V>): MessageId {
    match m
    case UdpDatagram(_) => UDP_DATAGRAM
    case Opaque(id, _) => id
    case Record(id, _) => id
  }

  datatype FrameError =
    | InvalidMagic
    | UnknownMessage(raw: nat)
    | UnsupportedFlags(flags: nat)
    | PayloadTooLarge(declared: nat, max: nat)
    | MessagePayloadTooLarge(message: MessageId, declared: nat, max: nat)
    | Truncated(needed: nat, available: nat)
    | MalformedPayload(message: MessageId)
    | TrailingBytes(count: nat)
    | LengthOverflow

  datatype Frame<V> = Frame(version: PeerTranscript.Version, flags: U16, message: Message<V>)

  /** The serialisation library: `take` also returns what it did not read. */
  datatype Postcard<!V> = Postcard(serialize: (MessageId, V) -> Option<Bytes>, take: (MessageId,
      Bytes) -> Option<(V, Bytes)>)

  ghost predicate RoundTrips<V(!new)>(pc: Postcard<V>) {
    forall id, v :: pc.serialize(id, v).Some? ==> pc.take(id, pc.serialize(id, v).value) == Some((v, []))
  }

  // ---------------------------------------------------------------------------
  // Datagrams
  // ---------------------------------------------------------------------------

  function Zeros(n: nat): (s: Bytes)
    ensures |s| == n && forall i | 0 <= i < n :: s[i] == 0
  {
    if n == 0 then [] else Zeros(n - 1) + [0]
  }

  function AddressBytes(a: Address): (s: Bytes)
    ensures |s| == 19
  {
    match a
    case V4(octets, port) => [4] + (octets + Zeros(12)) + BigEndian(port, 2)
    case V6(octets, port) => [6] + octets + BigEndian(port, 2)
  }

  function EncodeUdp(d: Datagram): Result<Bytes, FrameError> {
    if d.tunnel == 0 || d.session == 0 then Err(MalformedPayload(UDP_DATAGRAM))
    else Ok(BigEndian(d.tunnel, 4) + BigEndian(d.session, 8) + AddressBytes(d.source) + d.payload)
  }

  function DecodeAddress(s: Bytes): Option<Address>
    requires |s| == 19
  {
    ReadBounds(s[17..19]);
    var port := FromBigEndian(s[17..19]);
    if s[0] == 4 && s[5..17] == Zeros(12) then Some(PeerTranscript.V4(s[1..5], port))
    else if s[0] == 6 then Some(PeerTranscript.V6(s[1..17], port))
    else None
  }

  lemma ReadBounds(s: Bytes)
    ensures |s| == 2 ==> FromBigEndian(s) <= U16_MAX
    ensures |s| == 4 ==> FromBigEndian(s) <= U32_MAX
    ensures |s| == 8 ==> FromBigEndian(s) <= U64_MAX
  {
    hide FromBigEndian;
    FromBigEndianRoundTrip(s);
    Widths();
  }

  function DecodeUdp(payload: Bytes): Result<Datagram, FrameError> {
    if |payload| < UDP_METADATA_LEN then Err(MalformedPayload(UDP_DATAGRAM))
    else
      var raw := payload[UDP_METADATA_LEN..];
      if |raw| > MAX_UDP_PAYLOAD_BYTES then
        Err(MessagePayloadTooLarge(UDP_DATAGRAM, |payload|, UDP_METADATA_LEN + MAX_UDP_PAYLOAD_BYTES))
      else
        ReadBounds(payload[0..4]);
        ReadBounds(payload[4..12]);
        var tunnel, session := FromBigEndian(payload[0..4]), FromBigEndian(payload[4..12]);
        if tunnel == 0 || session == 0 then Err(MalformedPayload(UDP_DATAGRAM))
        else
          match DecodeAddress(payload[12..31])
          case None => Err(MalformedPayload(UDP_DATAGRAM))
          case Some(source) => Ok(Datagram(tunnel, session, source, raw))
  }

  lemma AddressRoundTrip(a: Address)
    ensures DecodeAddress(AddressBytes(a)) == Some(a)
  {
    hide BigEndian, FromBigEndian;
    var s := AddressBytes(a);
    assert s[17..19] == BigEndian(a.port, 2);
    Widths();
    BigEndianRoundTrip(a.port, 2);
    if a.V4? {
      assert s[1..5] == a.octets4 && s[5..17] == Zeros(12);
    } else {
      assert s[1..17] == a.octets16;
    }
  }

  lemma AddressReencodes(s: Bytes)
    requires |s| == 19 && DecodeAddress(s).Some?
    ensures AddressBytes(DecodeAddress(s).value) == s
  {
    hide BigEndian, FromBigEndian;
    FromBigEndianRoundTrip(s[17..19]);
    if s[0] == 4 {
      assert s == [4] + (s[1..5] + s[5..17]) + s[17..19];
    } else {
      assert s == [6] + s[1..17] + s[17..19];
    }
  }

  /** Decoding undoes encoding, for every datagram the encoder accepts. */
  lemma UdpRoundTrip(d: Datagram)
    requires EncodeUdp(d).Ok?
    ensures DecodeUdp(EncodeUdp(d).value) == Ok(d)
  {
    hide BigEndian, FromBigEndian, AddressBytes, DecodeAddress;
    var s := EncodeUdp(d).value;
    assert s[0..4] == BigEndian(d.tunnel, 4) && s[4..12] == BigEndian(d.session, 8);
    assert s[12..31] == AddressBytes(d.source) && s[31..] == d.payload;
    Widths();
    BigEndianRoundTrip(d.tunnel, 4);
    BigEndianRoundTrip(d.session, 8);
    AddressRoundTrip(d.source);
  }

  /** Encoding undoes decoding, for every payload the decoder accepts. */
  lemma UdpReencodes(s: Bytes)
    requires DecodeUdp(s).Ok?
    ensures EncodeUdp(DecodeUdp(s).value) == Ok(s)
  {
    hide BigEndian, FromBigEndian, AddressBytes, DecodeAddress;
    FromBigEndianRoundTrip(s[0..4]);
    FromBigEndianRoundTrip(s[4..12]);
    AddressReencodes(s[12..31]);
    assert s == s[0..4] + s[4..12] + s[12..31] + s[31..];
  }

  // ---------------------------------------------------------------------------
  // Payloads
  // ---------------------------------------------------------------------------

  function EncodePayload<V>(pc: Postcard<V>, m: Message<V>): Result<Bytes, FrameError> {
    match m
    case UdpDatagram(d) => EncodeUdp(d)
    case Opaque(_, bytes) => Ok(bytes)
    case Record(id, v) =>
      match pc.serialize(id, v)
      case None => Err(LengthOverflow)
      case Some(bytes) => Ok(bytes)
  }

  function DecodePayload<V>(pc: Postcard<V>, id: MessageId, payload: Bytes): Result<Message<V>, FrameError> {
    if id == UDP_DATAGRAM then
      match DecodeUdp(payload)
      case Err(e) => Err(e)
      case Ok(d) => Ok(UdpDatagram(d))
    else if IsOpaque(id) then
      if |payload| > MaxPayload(id) then Err(LengthOverflow) else Ok(Opaque(id, payload))
    else
      match pc.take(id, payload)
      case None => Err(MalformedPayload(id))
      case Some((value, remainder)) => if remainder != [] then Err(MalformedPayload(id)) else Ok(Record(id, value))
  }

  lemma PayloadRoundTrip<V(!new)>(pc: Postcard<V>, m: Message<V>)
    requires RoundTrips(pc) && WellTyped(m) && EncodePayload(pc, m).Ok?
    ensures DecodePayload(pc, IdOf(m), EncodePayload(pc, m).value) == Ok(m)
  {
    hide EncodeUdp, DecodeUdp, MaxPayload;
    if m.UdpDatagram? {
      UdpRoundTrip(m.datagram);
    }
  }

  // ---------------------------------------------------------------------------
  // Frames
  // ---------------------------------------------------------------------------

  /** No flag is supported yet. */
  function ValidateFlags(flags: nat): Option<FrameError> {
    if flags != 0 then Some(UnsupportedFlags(flags)) else None
  }

  function ValidateLength(max: nat, id: MessageId, declared: nat): Option<FrameError> {
    if declared > max then Some(PayloadTooLarge(declared, max))
    else if declared > MaxPayload(id) then Some(MessagePayloadTooLarge(id, declared, MaxPayload(id)))
    else None
  }

  function HeaderBytes(version: PeerTranscript.Version, id: MessageId, flags: U16, length: U32): (s: Bytes)
    ensures |s| == HEADER_LEN
  {
    MAGIC + BigEndian(version.major, 2) + BigEndian(version.minor, 2) + BigEndian(id, 2) + BigEndian(flags, 2)
      + BigEndian(length, 4)
  }

  function Encode<V>(max: nat, pc: Postcard<V>, f: Frame<V>): Result<Bytes, FrameError> {
    match ValidateFlags(f.flags)
    case Some(e) => Err(e)
    case None =>
      match EncodePayload(pc, f.message)
      case Err(e) => Err(e)
      case Ok(payload) =>
        match ValidateLength(max, IdOf(f.message), |payload|)
        case Some(e) => Err(e)
        case None =>
          if |payload| > U32_MAX then Err(LengthOverflow)
          else Ok(HeaderBytes(f.version, IdOf(f.message), f.flags, |payload|) + payload)
  }

  datatype Header = Header(version: PeerTranscript.Version, id: MessageId, flags: U16, length: nat)

  function InspectHeader(max: nat, input: Bytes): Result<Option<Header>, FrameError> {
    if |input| < HEADER_LEN then Ok(None)
    else if input[0..4] != MAGIC then Err(InvalidMagic)
    else
      ReadBounds(input[4..6]);
      ReadBounds(input[6..8]);
      ReadBounds(input[10..12]);
      var major, minor := FromBigEndian(input[4..6]), FromBigEndian(input[6..8]);
      var raw, flags := FromBigEndian(input[8..10]), FromBigEndian(input[10..12]);
      if !(1 <= raw <= 37) then Err(UnknownMessage(raw))
      else
        match ValidateFlags(flags)
        case Some(e) => Err(e)
        case None =>
          var declared := FromBigEndian(input[12..16]);
          match ValidateLength(max, raw, declared)
          case Some(e) => Err(e)
          case None => Ok(Some(Header(PeerTranscript.Version(major, minor), raw, flags, declared)))
  }

  /** One decoded frame and the input after it. */
  datatype Decoded<V> = Decoded(frame: Frame<V>, rest: Bytes)

  function Decode<V>(max: nat, pc: Postcard<V>, input: Bytes): Result<Option<Decoded<V>>, FrameError> {
    match InspectHeader(max, input)
    case Err(e) => Err(e)
    case Ok(None) => Ok(None)
    case Ok(Some(header)) =>
      var end := HEADER_LEN + header.length;
      if |input| < end then Ok(None)
      else
        match DecodePayload(pc, header.id, input[HEADER_LEN..end])
        case Err(e) => Err(e)
        case Ok(message) => Ok(Some(Decoded(Frame(header.version, header.flags, message), input[end..])))
  }

  function DecodeExact<V>(max: nat, pc: Postcard<V>, input: Bytes): Result<Frame<V>, FrameError> {
    if |input| < HEADER_LEN then Err(Truncated(HEADER_LEN, |input|))
    else
      match InspectHeader(max, input)
      case Err(e) => Err(e)
      case Ok(None) => Err(Truncated(HEADER_LEN, |input|))
      case Ok(Some(header)) =>
        var end := HEADER_LEN + header.length;
        if |input| < end then Err(Truncated(end, |input|))
        else if |input| > end then Err(TrailingBytes(|input| - end))
        else
          match DecodePayload(pc, header.id, input[HEADER_LEN..])
          case Err(e) => Err(e)
          case Ok(message) => Ok(Frame(header.version, header.flags, message))
  }

  lemma HeaderRoundTrip(max: nat, version: PeerTranscript.Version, id: MessageId, length: U32, tail: Bytes)
    requires ValidateLength(max, id, length).None?
    ensures InspectHeader(max, HeaderBytes(version, id, 0, length) + tail) == Ok(Some(Header(version, id, 0, length)))
  {
    hide BigEndian, FromBigEndian, MaxPayload;
    var s := HeaderBytes(version, id, 0, length) + tail;
    assert s[0..4] == MAGIC && s[4..6] == BigEndian(version.major, 2) && s[6..8] == BigEndian(version.minor, 2);
    assert s[8..10] == BigEndian(id, 2) && s[10..12] == BigEndian(0, 2) && s[12..16] == BigEndian(length, 4);
    Widths();
    BigEndianRoundTrip(version.major, 2);
    BigEndianRoundTrip(version.minor, 2);
    BigEndianRoundTrip(id, 2);
    BigEndianRoundTrip(0, 2);
    BigEndianRoundTrip(length, 4);
  }

  /** An encoded frame decodes to itself, whatever follows it in the stream. */
  lemma {:induction false} FrameRoundTrip<V(!new)>(max: nat, pc: Postcard<V>, f: Frame<V>, tail: Bytes)
    requires RoundTrips(pc) && WellTyped(f.message) && Encode(max, pc, f).Ok?
    ensures Decode(max, pc, Encode(max, pc, f).value + tail) == Ok(Some(Decoded(f, tail)))
  {
    hide EncodePayload, DecodePayload, HeaderBytes, InspectHeader, RoundTrips, WellTyped, MaxPayload;
    var payload := EncodePayload(pc, f.message).value;
    var header := HeaderBytes(f.version, IdOf(f.message), f.flags, |payload|);
    var s := header + payload + tail;
    assert s == header + (payload + tail);
    HeaderRoundTrip(max, f.version, IdOf(f.message), |payload|, payload + tail);
    assert s[HEADER_LEN..HEADER_LEN + |payload|] == payload && s[HEADER_LEN + |payload|..] == tail;
    PayloadRoundTrip(pc, f.message);
  }

  /** The exact decoder succeeds exactly when the stream decoder consumes everything. */
  lemma ExactMeansAllConsumed<V>(max: nat, pc: Postcard<V>, input: Bytes, f: Frame<V>)
    ensures DecodeExact(max, pc, input) == Ok(f) <==> Decode(max, pc, input) == Ok(Some(Decoded(f, [])))
  {
    hide DecodePayload, MaxPayload, FromBigEndian, ValidateLength;
    var h := InspectHeader(max, input);
    if h.Ok? && h.value.Some? && |input| >= HEADER_LEN + h.value.value.length {
      var end := HEADER_LEN + h.value.value.length;
      assert input[end..] == [] <==> |input| == end;
      assert |input| == end ==> input[HEADER_LEN..end] == input[HEADER_LEN..];
    }
  }

  lemma HeaderReencodes(max: nat, input: Bytes)
    requires InspectHeader(max, input).Ok? && InspectHeader(max, input).value.Some?
    ensures var h := InspectHeader(max, input).value.value;
      && h.flags == 0 && ValidateLength(max, h.id, h.length).None? && h.length <= U32_MAX
      && input[..HEADER_LEN] == HeaderBytes(h.version, h.id, h.flags, h.length)
  {
    hide BigEndian, FromBigEndian, MaxPayload;
    FromBigEndianRoundTrip(input[4..6]);
    FromBigEndianRoundTrip(input[6..8]);
    FromBigEndianRoundTrip(input[8..10]);
    FromBigEndianRoundTrip(input[10..12]);
    FromBigEndianRoundTrip(input[12..16]);
    assert input[..16] == input[0..4] + input[4..6] + input[6..8] + input[8..10] + input[10..12] + input[12..16];
  }

  /** A decoded datagram or opaque frame encodes back to the very bytes that were consumed. */
  lemma {:induction false} DecodedReencodes<V>(max: nat, pc: Postcard<V>, input: Bytes)
    requires Decode(max, pc, input).Ok? && Decode(max, pc, input).value.Some?
    requires !Decode(max, pc, input).value.value.frame.message.Record?
    ensures var d := Decode(max, pc, input).value.value;
      Encode(max, pc, d.frame).Ok? && input == Encode(max, pc, d.frame).value + d.rest
  {
    hide HeaderBytes, InspectHeader, EncodeUdp, DecodeUdp, MaxPayload;
    HeaderReencodes(max, input);
    var h := InspectHeader(max, input).value.value;
    var payload := input[HEADER_LEN..HEADER_LEN + h.length];
    if h.id == UDP_DATAGRAM {
      UdpReencodes(payload);
    }
    assert input == input[..HEADER_LEN] + payload + input[HEADER_LEN + h.length..];
  }

  // ---------------------------------------------------------------------------
  // Streams
  // ---------------------------------------------------------------------------

  lemma HeaderStable(max: nat, input: Bytes, more: Bytes)
    requires |input| >= HEADER_LEN
    ensures InspectHeader(max, input + more) == InspectHeader(max, input)
  {
    hide FromBigEndian, ValidateLength;
    var s := input + more;
    assert s[0..4] == input[0..4] && s[4..6] == input[4..6] && s[6..8] == input[6..8];
    assert s[8..10] == input[8..10] && s[10..12] == input[10..12] && s[12..16] == input[12..16];
  }

  /** A decided outcome does not depend on the bytes that arrive later. */
  lemma DecodeStable<V>(max: nat, pc: Postcard<V>, input: Bytes, more: Bytes)
    ensures var r := Decode(max, pc, input);
      && (r.Err? ==> Decode(max, pc, input + more) == r)
      && (r.Ok? && r.value.Some? ==>
            && Decode(max, pc, input + more) == Ok(Some(Decoded(r.value.value.frame, r.value.value.rest + more)))
            && |r.value.value.rest| < |input|)
  {
    if |input| >= HEADER_LEN {
      HeaderStable(max, input, more);
      hide InspectHeader, DecodePayload;
      var h := InspectHeader(max, input);
      if h.Ok? && h.value.Some? && HEADER_LEN + h.value.value.length <= |input| {
        var end := HEADER_LEN + h.value.value.length;
        assert (input + more)[HEADER_LEN..end] == input[HEADER_LEN..end];
        assert (input + more)[end..] == input[end..] + more;
      }
    }
  }

  /** Frames decoded so far, the error that ended the stream if any, and the unread bytes. */
  datatype Stream<V> = Stream(frames: seq<Frame<V>>, error: Option<FrameError>, buffer: Bytes)

  /** Decodes as long as whole frames are in the buffer. */
  function Drain<V>(max: nat, pc: Postcard<V>, s: Stream<V>): Stream<V>
    decreases |s.buffer|
  {
    if s.error.Some? then s
    else
      match Decode(max, pc, s.buffer)
      case Err(e) => s.(error := Some(e))
      case Ok(None) => s
      case Ok(Some(d)) =>
        DecodeStable(max, pc, s.buffer, []);
        Drain(max, pc, Stream(s.frames + [d.frame], None, d.rest))
  }

  function Feed<V>(max: nat, pc: Postcard<V>, s: Stream<V>, chunk: Bytes): Stream<V> {
    Drain(max, pc, s.(buffer := s.buffer + chunk))
  }

  function FeedAll<V>(max: nat, pc: Postcard<V>, chunks: seq<Bytes>): Stream<V> {
    if chunks == [] then Stream([], None, [])
    else Feed(max, pc, FeedAll(max, pc, chunks[..|chunks| - 1]), chunks[|chunks| - 1])
  }

  function Concat(chunks: seq<Bytes>): Bytes {
    if chunks == [] then [] else Concat(chunks[..|chunks| - 1]) + chunks[|chunks| - 1]
  }

  /** Draining early and again later is draining once. */
  lemma {:induction false} DrainTwice<V>(max: nat, pc: Postcard<V>, s: Stream<V>, more: Bytes)
    ensures var early := Drain(max, pc, s);
      Drain(max, pc, early.(buffer := early.buffer + more)) == Drain(max, pc, s.(buffer := s.buffer + more))
    decreases |s.buffer|
  {
    hide Decode;
    if s.error.None? {
      DecodeStable(max, pc, s.buffer, more);
      var r := Decode(max, pc, s.buffer);
      if r.Ok? && r.value.Some? {
        var d := r.value.value;
        DrainTwice(max, pc, Stream(s.frames + [d.frame], None, d.rest), more);
      }
    }
  }

  /**
   Feeding a stream in any chunks yields the same frames, the same first error and the
   same unread bytes as decoding all of it at once.
   */
  lemma {:induction false} ChunkingDoesNotMatter<V>(max: nat, pc: Postcard<V>, chunks: seq<Bytes>)
    ensures FeedAll(max, pc, chunks) == Drain(max, pc, Stream([], None, Concat(chunks)))
  {
    if chunks == [] {
    } else {
      hide Decode, Drain;
      var n := |chunks| - 1;
      ChunkingDoesNotMatter(max, pc, chunks[..n]);
      DrainTwice(max, pc, Stream([], None, Concat(chunks[..n])), chunks[n]);
    }
  }

  /** A stream of encoded frames, cut anywhere, decodes to exactly those frames. */
  function EncodeAll<V>(max: nat, pc: Postcard<V>, frames: seq<Frame<V>>): Bytes
    requires forall f | f in frames :: Encode(max, pc, f).Ok?
  {
    if frames == [] then [] else Encode(max, pc, frames[0]).value + EncodeAll(max, pc, frames[1..])
  }

  lemma {:induction false} DrainEncoded<V(!new)>(max: nat, pc: Postcard<V>, done: seq<Frame<V>>, frames: seq<Frame<V>>)
    requires RoundTrips(pc) && forall f | f in frames :: WellTyped(f.message) && Encode(max, pc, f).Ok?
    ensures Drain(max, pc, Stream(done, None, EncodeAll(max, pc, frames))) == Stream(done + frames, None, [])
    decreases |frames|
  {
    hide Encode, Decode, RoundTrips, WellTyped;
    if frames == [] {
      EmptyDecodes(max, pc);
      assert done + frames == done;
    } else {
      FrameRoundTrip(max, pc, frames[0], EncodeAll(max, pc, frames[1..]));
      DrainEncoded(max, pc, done + [frames[0]], frames[1..]);
      assert done + [frames[0]] + frames[1..] == done + frames;
    }
  }

  lemma EmptyDecodes<V>(max: nat, pc: Postcard<V>)
    ensures Decode(max, pc, []) == Ok(None)
  {
  }

  /** Whatever frames are sent and however the bytes are cut, exactly those frames arrive. */
  lemma {:induction false} StreamRoundTrip<V(!new)>(max: nat, pc: Postcard<V>, frames: seq<Frame<V>>,
      chunks: seq<Bytes>)
    requires RoundTrips(pc) && forall f | f in frames :: WellTyped(f.message) && Encode(max, pc, f).Ok?
    requires Concat(chunks) == EncodeAll(max, pc, frames)
    ensures FeedAll(max, pc, chunks) == Stream(frames, None, [])
  {
    hide Encode, Decode, Drain, FeedAll, RoundTrips, WellTyped, Concat, EncodeAll;
    ChunkingDoesNotMatter(max, pc, chunks);
    DrainEncoded(max, pc, [], frames);
    assert [] + frames == frames;
  }

  /** The input buffer of a connection. */
  class InputBuffer {
    var bytes: Bytes

    constructor ()
      ensures bytes == []
    {
      bytes := [];
    }

    /** Consumes one whole valid frame; an error or a partial frame consumes nothing. */
    method Next<V>(max: nat, pc: Postcard<V>) returns (r: Result<Option<Frame<V>>, FrameError>)
      modifies this
      ensures var d := Decode(max, pc, old(bytes));
        && (d.Err? ==> r == Err(d.error) && bytes == old(bytes))
        && (d.Ok? && d.value.None? ==> r == Ok(None) && bytes == old(bytes))
        && (d.Ok? && d.value.Some? ==> r == Ok(Some(d.value.value.frame)) && bytes == d.value.value.rest)
    {
      hide InspectHeader, DecodePayload;
      var inspected := InspectHeader(max, bytes);
      if inspected.Err? {
        return Err(inspected.error);
      }
      if inspected.value.None? {
        return Ok(None);
      }
      var header := inspected.value.value;
      var end := HEADER_LEN + header.length;
      if |bytes| < end {
        return Ok(None);
      }
      var message := DecodePayload(pc, header.id, bytes[HEADER_LEN..end]);
      if message.Err? {
        return Err(message.error);
      }
      bytes := bytes[end..];
      r := Ok(Some(Frame(header.version, header.flags, message.value)));
    }
  }
}
