/**
 The canonical transcript a rendezvous envelope is signed over, and the session
 transcript the peer keys are bound to. The encodings have no decoder in the program;
 what matters is that they are injective, so a signature speaks for every field.
 */
module PeerTranscript {
  import opened Wrappers
  import opened ByteCodec

  const ENVELOPE_DOMAIN: string := "rustgo-peer-envelope-v1"
  const SESSION_DOMAIN: string := "rustgo-peer-session-v1"

  datatype Version = Version(major: U16, minor: U16)
  datatype Transport = QuicUdp | NativeTcp | Relay
  datatype Protocol = Tcp | Udp

  type Octets4 = s: Bytes | |s| == 4 witness [0, 0, 0, 0]
  type Octets16 = s: Bytes | |s| == 16 witness [0, 0, 0, 0, 0, 0, 0, 0, 0, 0, 0, 0, 0, 0, 0, 0]

  datatype Address = V4(octets4: Octets4, port: U16) | V6(octets16: Octets16, port: U16)

  datatype Candidate = Candidate(
    transport: Transport, address: Address, priority: U32, foundation: Field,
    generation: U64, expires: U64, source: Field)

  datatype Binding = Binding(transport: Transport, key: Field)

  type Candidates = cs: seq<Candidate> | |cs| <= U32_MAX
  type Bindings = bs: seq<Binding> | |bs| <= U32_MAX

  datatype Payload =
    | Request(export_: Field)
    | ProviderDecision(accepted: bool, protocol: Option<Protocol>, detail: Option<Field>)
    | CandidateSet(key: Field, candidates: Candidates)
    | CandidateSetV2(ownerIsInitiator: bool, bindings: Bindings, candidates: Candidates)
    | ConnectivityResult(connected: bool, transport: Option<Transport>, detail: Option<Field>)
    | RelayRequest(datagram: bool)
    | Close(detail: Option<Field>)
    | Error(code: U16, reason: Field)

  datatype Envelope = Envelope(
    version: Version, session: Field, sender: Field, target: Field, step: U64,
    generation: U64, expires: U64, payload: Payload, signature: Bytes)

  // ---------------------------------------------------------------------------
  // Encodings, each followed by a tail
  // ---------------------------------------------------------------------------

  function Ascii(s: string): Bytes {
    seq(|s|, i requires 0 <= i < |s| => (s[i] as int) % 256)
  }

  function Flag(b: bool): Byte {
    if b then 1 else 0
  }

  function TransportTag(t: Transport): Byte {
    match t
    case QuicUdp => 1
    case NativeTcp => 2
    case Relay => 3
  }

  function ProtocolTag(p: Protocol): Byte {
    match p
    case Tcp => 1
    case Udp => 2
  }

  /** The part of an address after its tag. */
  function AddressRest(a: Address, tail: Bytes): Bytes {
    match a
    case V4(octets, port) => PutField(octets, PutU16(port, tail))
    case V6(octets, port) => PutField(octets, PutU16(port, tail))
  }

  function PutAddress(a: Address, tail: Bytes): Bytes {
    PutByte(if a.V4? then 1 else 2, AddressRest(a, tail))
  }

  /** The part of a candidate after its address. */
  function PutDetails(c: Candidate, tail: Bytes): Bytes {
    PutU32(c.priority, PutField(c.foundation, PutU64(c.generation, PutU64(c.expires, PutField(c.source, tail)))))
  }

  function PutCandidate(c: Candidate, tail: Bytes): Bytes {
    PutByte(TransportTag(c.transport), PutAddress(c.address, PutDetails(c, tail)))
  }

  function PutCandidates(cs: seq<Candidate>, tail: Bytes): Bytes {
    if cs == [] then tail else PutCandidate(cs[0], PutCandidates(cs[1..], tail))
  }

  function PutBinding(b: Binding, tail: Bytes): Bytes {
    PutByte(TransportTag(b.transport), PutField(b.key, tail))
  }

  function PutBindings(bs: seq<Binding>, tail: Bytes): Bytes {
    if bs == [] then tail else PutBinding(bs[0], PutBindings(bs[1..], tail))
  }

  function PutOptionalField(f: Option<Field>, tail: Bytes): Bytes {
    match f
    case None => PutByte(0, tail)
    case Some(value) => PutByte(1, PutField(value, tail))
  }

  function PutOptionalTransport(t: Option<Transport>, tail: Bytes): Bytes {
    match t
    case None => PutByte(0, tail)
    case Some(value) => PutByte(1, PutByte(TransportTag(value), tail))
  }

  function PutOptionalProtocol(p: Option<Protocol>, tail: Bytes): Bytes {
    match p
    case None => PutByte(0, tail)
    case Some(value) => PutByte(1, PutByte(ProtocolTag(value), tail))
  }

  function PayloadTag(p: Payload): Byte {
    match p
    case Request(_) => 1
    case ProviderDecision(_, _, _) => 2
    case CandidateSet(_, _) => 3
    case ConnectivityResult(_, _, _) => 4
    case RelayRequest(_) => 5
    case Close(_) => 6
    case Error(_, _) => 7
    case CandidateSetV2(_, _, _) => 8
  }

  function PutPayloadBody(p: Payload, tail: Bytes): Bytes {
    match p
    case Request(export_) => PutField(export_, tail)
    case ProviderDecision(accepted, protocol, detail) =>
      PutByte(Flag(accepted), PutOptionalProtocol(protocol, PutOptionalField(detail, tail)))
    case CandidateSet(key, candidates) => PutField(key, PutU32(|candidates|, PutCandidates(candidates, tail)))
    case CandidateSetV2(owner, bindings, candidates) =>
      PutByte(Flag(owner),
        PutU32(|bindings|, PutBindings(bindings, PutU32(|candidates|, PutCandidates(candidates, tail)))))
    case ConnectivityResult(connected, transport, detail) =>
      PutByte(Flag(connected), PutOptionalTransport(transport, PutOptionalField(detail, tail)))
    case RelayRequest(datagram) => PutByte(Flag(datagram), tail)
    case Close(detail) => PutOptionalField(detail, tail)
    case Error(code, reason) => PutU16(code, PutField(reason, tail))
  }

  function PutPayload(p: Payload, tail: Bytes): Bytes {
    PutByte(PayloadTag(p), PutPayloadBody(p, tail))
  }

  function PutVersion(v: Version, tail: Bytes): Bytes {
    PutU16(v.major, PutU16(v.minor, tail))
  }

  function PutRoute(e: Envelope, tail: Bytes): Bytes {
    PutField(e.session, PutField(e.sender, PutField(e.target, tail)))
  }

  function PutOrder(e: Envelope, tail: Bytes): Bytes {
    PutU64(e.step, PutU64(e.generation, PutU64(e.expires, tail)))
  }

  /** The bytes an envelope is signed over; the signature itself is not among them. */
  function EncodeEnvelope(e: Envelope): Bytes {
    Ascii(ENVELOPE_DOMAIN) + PutVersion(e.version, PutRoute(e, PutOrder(e, PutPayload(e.payload, []))))
  }

  // ---------------------------------------------------------------------------
  // Injectivity
  // ---------------------------------------------------------------------------

  lemma TransportUnique(a: Transport, r: Bytes, b: Transport, s: Bytes)
    requires PutByte(TransportTag(a), r) == PutByte(TransportTag(b), s)
    ensures a == b && r == s
  {
    hide PutByte;
    ByteUnique(TransportTag(a), r, TransportTag(b), s);
  }

  lemma FlagUnique(a: bool, r: Bytes, b: bool, s: Bytes)
    requires PutByte(Flag(a), r) == PutByte(Flag(b), s)
    ensures a == b && r == s
  {
    hide PutByte;
    ByteUnique(Flag(a), r, Flag(b), s);
  }

  lemma OptionalFieldUnique(a: Option<Field>, r: Bytes, b: Option<Field>, s: Bytes)
    requires PutOptionalField(a, r) == PutOptionalField(b, s)
    ensures a == b && r == s
  {
    hide PutByte, PutField;
    var x := if a.None? then r else PutField(a.value, r);
    var y := if b.None? then s else PutField(b.value, s);
    ByteUnique(if a.None? then 0 else 1, x, if b.None? then 0 else 1, y);
    if a.Some? {
      FieldUnique(a.value, r, b.value, s);
    }
  }

  lemma OptionalTransportUnique(a: Option<Transport>, r: Bytes, b: Option<Transport>, s: Bytes)
    requires PutOptionalTransport(a, r) == PutOptionalTransport(b, s)
    ensures a == b && r == s
  {
    hide PutByte;
    var x := if a.None? then r else PutByte(TransportTag(a.value), r);
    var y := if b.None? then s else PutByte(TransportTag(b.value), s);
    ByteUnique(if a.None? then 0 else 1, x, if b.None? then 0 else 1, y);
    if a.Some? {
      TransportUnique(a.value, r, b.value, s);
    }
  }

  lemma OptionalProtocolUnique(a: Option<Protocol>, r: Bytes, b: Option<Protocol>, s: Bytes)
    requires PutOptionalProtocol(a, r) == PutOptionalProtocol(b, s)
    ensures a == b && r == s
  {
    hide PutByte;
    var x := if a.None? then r else PutByte(ProtocolTag(a.value), r);
    var y := if b.None? then s else PutByte(ProtocolTag(b.value), s);
    ByteUnique(if a.None? then 0 else 1, x, if b.None? then 0 else 1, y);
    if a.Some? {
      ByteUnique(ProtocolTag(a.value), r, ProtocolTag(b.value), s);
    }
  }

  lemma AddressUnique(a: Address, r: Bytes, b: Address, s: Bytes)
    requires PutAddress(a, r) == PutAddress(b, s)
    ensures a == b && r == s
  {
    hide PutByte, PutField, PutU16;
    ByteUnique(if a.V4? then 1 else 2, AddressRest(a, r), if b.V4? then 1 else 2, AddressRest(b, s));
    if a.V4? {
      FieldUnique(a.octets4, PutU16(a.port, r), b.octets4, PutU16(b.port, s));
    } else {
      FieldUnique(a.octets16, PutU16(a.port, r), b.octets16, PutU16(b.port, s));
    }
    U16Unique(a.port, r, b.port, s);
  }

  lemma DetailsUnique(a: Candidate, r: Bytes, b: Candidate, s: Bytes)
    requires PutDetails(a, r) == PutDetails(b, s)
    ensures a.priority == b.priority && a.foundation == b.foundation && a.generation == b.generation
    ensures a.expires == b.expires && a.source == b.source && r == s
  {
    hide PutU32, PutField, PutU64;
    var a5, b5 := PutField(a.source, r), PutField(b.source, s);
    var a4, b4 := PutU64(a.expires, a5), PutU64(b.expires, b5);
    var a3, b3 := PutU64(a.generation, a4), PutU64(b.generation, b4);
    var a2, b2 := PutField(a.foundation, a3), PutField(b.foundation, b3);
    U32Unique(a.priority, a2, b.priority, b2);
    FieldUnique(a.foundation, a3, b.foundation, b3);
    U64Unique(a.generation, a4, b.generation, b4);
    U64Unique(a.expires, a5, b.expires, b5);
    FieldUnique(a.source, r, b.source, s);
  }

  lemma CandidateUnique(a: Candidate, r: Bytes, b: Candidate, s: Bytes)
    requires PutCandidate(a, r) == PutCandidate(b, s)
    ensures a == b && r == s
  {
    hide PutByte, PutAddress, TransportTag;
    var a1, b1 := PutDetails(a, r), PutDetails(b, s);
    TransportUnique(a.transport, PutAddress(a.address, a1), b.transport, PutAddress(b.address, b1));
    AddressUnique(a.address, a1, b.address, b1);
    DetailsUnique(a, r, b, s);
  }

  lemma {:induction false} CandidatesUnique(a: seq<Candidate>, r: Bytes, b: seq<Candidate>, s: Bytes)
    requires |a| == |b| && PutCandidates(a, r) == PutCandidates(b, s)
    ensures a == b && r == s
  {
    hide PutCandidate;
    if a != [] {
      CandidateUnique(a[0], PutCandidates(a[1..], r), b[0], PutCandidates(b[1..], s));
      CandidatesUnique(a[1..], r, b[1..], s);
      assert a == [a[0]] + a[1..] && b == [b[0]] + b[1..];
    }
  }

  lemma {:induction false} BindingsUnique(a: seq<Binding>, r: Bytes, b: seq<Binding>, s: Bytes)
    requires |a| == |b| && PutBindings(a, r) == PutBindings(b, s)
    ensures a == b && r == s
  {
    hide PutByte, PutField, TransportTag;
    if a != [] {
      var a1, b1 := PutBindings(a[1..], r), PutBindings(b[1..], s);
      TransportUnique(a[0].transport, PutField(a[0].key, a1), b[0].transport, PutField(b[0].key, b1));
      FieldUnique(a[0].key, a1, b[0].key, b1);
      BindingsUnique(a[1..], r, b[1..], s);
      assert a == [a[0]] + a[1..] && b == [b[0]] + b[1..];
    }
  }

  lemma CountedCandidatesUnique(a: Candidates, r: Bytes, b: Candidates, s: Bytes)
    requires PutU32(|a|, PutCandidates(a, r)) == PutU32(|b|, PutCandidates(b, s))
    ensures a == b && r == s
  {
    hide PutU32, PutCandidates;
    U32Unique(|a|, PutCandidates(a, r), |b|, PutCandidates(b, s));
    CandidatesUnique(a, r, b, s);
  }

  lemma DecisionUnique(a: Payload, r: Bytes, b: Payload, s: Bytes)
    requires a.ProviderDecision? && b.ProviderDecision? && PutPayloadBody(a, r) == PutPayloadBody(b, s)
    ensures a == b && r == s
  {
    hide PutByte, PutOptionalField, PutOptionalProtocol, Flag;
    var a2, b2 := PutOptionalField(a.detail, r), PutOptionalField(b.detail, s);
    FlagUnique(a.accepted, PutOptionalProtocol(a.protocol, a2), b.accepted, PutOptionalProtocol(b.protocol, b2));
    OptionalProtocolUnique(a.protocol, a2, b.protocol, b2);
    OptionalFieldUnique(a.detail, r, b.detail, s);
  }

  lemma ResultUnique(a: Payload, r: Bytes, b: Payload, s: Bytes)
    requires a.ConnectivityResult? && b.ConnectivityResult? && PutPayloadBody(a, r) == PutPayloadBody(b, s)
    ensures a == b && r == s
  {
    hide PutByte, PutOptionalField, PutOptionalTransport, Flag;
    var a2, b2 := PutOptionalField(a.detail, r), PutOptionalField(b.detail, s);
    FlagUnique(a.connected, PutOptionalTransport(a.transport, a2), b.connected, PutOptionalTransport(b.transport, b2));
    OptionalTransportUnique(a.transport, a2, b.transport, b2);
    OptionalFieldUnique(a.detail, r, b.detail, s);
  }

  lemma SetUnique(a: Payload, r: Bytes, b: Payload, s: Bytes)
    requires a.CandidateSet? && b.CandidateSet? && PutPayloadBody(a, r) == PutPayloadBody(b, s)
    ensures a == b && r == s
  {
    hide PutField, PutU32, PutCandidates;
    var a1, b1 := PutU32(|a.candidates|, PutCandidates(a.candidates, r)),
      PutU32(|b.candidates|, PutCandidates(b.candidates, s));
    FieldUnique(a.key, a1, b.key, b1);
    CountedCandidatesUnique(a.candidates, r, b.candidates, s);
  }

  lemma SetV2Unique(a: Payload, r: Bytes, b: Payload, s: Bytes)
    requires a.CandidateSetV2? && b.CandidateSetV2? && PutPayloadBody(a, r) == PutPayloadBody(b, s)
    ensures a == b && r == s
  {
    hide PutByte, PutU32, PutCandidates, PutBindings, Flag;
    var a1, b1 := PutU32(|a.candidates|, PutCandidates(a.candidates, r)),
      PutU32(|b.candidates|, PutCandidates(b.candidates, s));
    var a2, b2 := PutU32(|a.bindings|, PutBindings(a.bindings, a1)), PutU32(|b.bindings|, PutBindings(b.bindings, b1));
    FlagUnique(a.ownerIsInitiator, a2, b.ownerIsInitiator, b2);
    U32Unique(|a.bindings|, PutBindings(a.bindings, a1), |b.bindings|, PutBindings(b.bindings, b1));
    BindingsUnique(a.bindings, a1, b.bindings, b1);
    CountedCandidatesUnique(a.candidates, r, b.candidates, s);
  }

  lemma ErrorUnique(a: Payload, r: Bytes, b: Payload, s: Bytes)
    requires a.Error? && b.Error? && PutPayloadBody(a, r) == PutPayloadBody(b, s)
    ensures a == b && r == s
  {
    hide PutU16, PutField;
    U16Unique(a.code, PutField(a.reason, r), b.code, PutField(b.reason, s));
    FieldUnique(a.reason, r, b.reason, s);
  }

  /** Across all eight kinds an encoded payload determines itself and what follows. */
  lemma PayloadUnique(a: Payload, r: Bytes, b: Payload, s: Bytes)
    requires PutPayload(a, r) == PutPayload(b, s)
    ensures a == b && r == s
  {
    hide PutByte, PutPayloadBody;
    ByteUnique(PayloadTag(a), PutPayloadBody(a, r), PayloadTag(b), PutPayloadBody(b, s));
    SameKindUnique(a, r, b, s);
  }

  lemma SameKindUnique(a: Payload, r: Bytes, b: Payload, s: Bytes)
    requires PayloadTag(a) == PayloadTag(b) && PutPayloadBody(a, r) == PutPayloadBody(b, s)
    ensures a == b && r == s
  {
    hide PutByte, PutField, PutU16, PutU32, PutOptionalField, PutOptionalProtocol, PutOptionalTransport, PutCandidates,
      PutBindings, Flag;
    match a
    case Request(export_) => FieldUnique(export_, r, b.export_, s);
    case ProviderDecision(_, _, _) => DecisionUnique(a, r, b, s);
    case CandidateSet(_, _) => SetUnique(a, r, b, s);
    case CandidateSetV2(_, _, _) => SetV2Unique(a, r, b, s);
    case ConnectivityResult(_, _, _) => ResultUnique(a, r, b, s);
    case RelayRequest(datagram) => FlagUnique(datagram, r, b.datagram, s);
    case Close(detail) => OptionalFieldUnique(detail, r, b.detail, s);
    case Error(_, _) => ErrorUnique(a, r, b, s);
  }

  lemma VersionUnique(a: Version, r: Bytes, b: Version, s: Bytes)
    requires PutVersion(a, r) == PutVersion(b, s)
    ensures a == b && r == s
  {
    hide PutU16;
    U16Unique(a.major, PutU16(a.minor, r), b.major, PutU16(b.minor, s));
    U16Unique(a.minor, r, b.minor, s);
  }

  lemma RouteUnique(a: Envelope, r: Bytes, b: Envelope, s: Bytes)
    requires PutRoute(a, r) == PutRoute(b, s)
    ensures a.session == b.session && a.sender == b.sender && a.target == b.target && r == s
  {
    hide PutField;
    var a2, b2 := PutField(a.target, r), PutField(b.target, s);
    var a1, b1 := PutField(a.sender, a2), PutField(b.sender, b2);
    FieldUnique(a.session, a1, b.session, b1);
    FieldUnique(a.sender, a2, b.sender, b2);
    FieldUnique(a.target, r, b.target, s);
  }

  lemma OrderUnique(a: Envelope, r: Bytes, b: Envelope, s: Bytes)
    requires PutOrder(a, r) == PutOrder(b, s)
    ensures a.step == b.step && a.generation == b.generation && a.expires == b.expires && r == s
  {
    hide PutU64;
    var a2, b2 := PutU64(a.expires, r), PutU64(b.expires, s);
    var a1, b1 := PutU64(a.generation, a2), PutU64(b.generation, b2);
    U64Unique(a.step, a1, b.step, b1);
    U64Unique(a.generation, a2, b.generation, b2);
    U64Unique(a.expires, r, b.expires, s);
  }

  /**
   Two envelopes are signed over the same bytes exactly when they agree on every field
   but the signature.
   */
  lemma {:induction false} EnvelopeTranscriptIsInjective(a: Envelope, b: Envelope)
    ensures EncodeEnvelope(a) == EncodeEnvelope(b) <==> a == b.(signature := a.signature)
  {
    hide PutVersion, PutRoute, PutOrder, PutPayload, Ascii;
    var a3, b3 := PutPayload(a.payload, []), PutPayload(b.payload, []);
    var a2, b2 := PutOrder(a, a3), PutOrder(b, b3);
    var a1, b1 := PutRoute(a, a2), PutRoute(b, b2);
    if EncodeEnvelope(a) == EncodeEnvelope(b) {
      var domain := Ascii(ENVELOPE_DOMAIN);
      SameHead(domain, PutVersion(a.version, a1), domain, PutVersion(b.version, b1));
      VersionUnique(a.version, a1, b.version, b1);
      RouteUnique(a, a2, b, b2);
      OrderUnique(a, a3, b, b3);
      PayloadUnique(a.payload, [], b.payload, []);
    }
    SignatureIsNotEncoded(a, b);
  }

  lemma SignatureIsNotEncoded(a: Envelope, b: Envelope)
    ensures a == b.(signature := a.signature) ==> EncodeEnvelope(a) == EncodeEnvelope(b)
  {
  }

  // ---------------------------------------------------------------------------
  // Transport bindings
  // ---------------------------------------------------------------------------

  /** One 32-byte key per transport, and every candidate uses a bound transport. */
  ghost predicate WellBound(bindings: seq<Binding>, candidates: seq<Candidate>) {
    && bindings != []
    && (forall b | b in bindings :: |b.key| == 32)
    && (forall i, j | 0 <= i < j < |bindings| :: bindings[i].transport != bindings[j].transport)
    && (forall c | c in candidates :: c.generation != 0 && exists b | b in bindings :: b.transport == c.transport)
  }

  method Validate(bindings: seq<Binding>, candidates: seq<Candidate>) returns (ok: bool)
    ensures ok <==> WellBound(bindings, candidates)
  {
    var seen: seq<Transport> := [];
    for i := 0 to |bindings|
      invariant |seen| == i && forall k | 0 <= k < i :: seen[k] == bindings[k].transport
      invariant forall k | 0 <= k < i :: |bindings[k].key| == 32
      invariant forall k, l | 0 <= k < l < i :: bindings[k].transport != bindings[l].transport
    {
      if |bindings[i].key| != 32 || bindings[i].transport in seen {
        assert bindings[i] in bindings;
        return false;
      }
      seen := seen + [bindings[i].transport];
    }
    if seen == [] { return false; }
    for i := 0 to |candidates|
      invariant forall c | c in candidates[..i] :: c.generation != 0 && c.transport in seen
    {
      if candidates[i].generation == 0 || candidates[i].transport !in seen {
        assert candidates[i] in candidates;
        return false;
      }
    }
    ok := true;
  }

  // ---------------------------------------------------------------------------
  // The session transcript
  // ---------------------------------------------------------------------------

  datatype Session = Session(
    id: Field, generation: U64, initiatorIdentity: Field, responderIdentity: Field,
    initiatorEphemeral: Field, responderEphemeral: Field, export_: Field, version: Version,
    rendezvousHash: Field)

  const INITIATOR_TAG: Byte := 1
  const RESPONDER_TAG: Byte := 2

  function PutRole(tag: Byte, identity: Field, ephemeral: Field, tail: Bytes): Bytes {
    PutByte(tag, PutField(identity, PutField(ephemeral, tail)))
  }

  function PutAgreement(x: Session, tail: Bytes): Bytes {
    PutField(x.export_, PutVersion(x.version, PutField(x.rendezvousHash, tail)))
  }

  /** The bytes both peers hash into the context of their session keys. */
  function EncodeSession(x: Session): Bytes {
    Ascii(SESSION_DOMAIN) + PutField(x.id, PutU64(x.generation,
      PutRole(INITIATOR_TAG, x.initiatorIdentity, x.initiatorEphemeral,
        PutRole(RESPONDER_TAG, x.responderIdentity, x.responderEphemeral, PutAgreement(x, [])))))
  }

  lemma RoleUnique(tag: Byte, i: Field, e: Field, r: Bytes, j: Field, f: Field, s: Bytes)
    requires PutRole(tag, i, e, r) == PutRole(tag, j, f, s)
    ensures i == j && e == f && r == s
  {
    hide PutByte, PutField;
    ByteUnique(tag, PutField(i, PutField(e, r)), tag, PutField(j, PutField(f, s)));
    FieldUnique(i, PutField(e, r), j, PutField(f, s));
    FieldUnique(e, r, f, s);
  }

  lemma AgreementUnique(a: Session, r: Bytes, b: Session, s: Bytes)
    requires PutAgreement(a, r) == PutAgreement(b, s)
    ensures a.export_ == b.export_ && a.version == b.version && a.rendezvousHash == b.rendezvousHash && r == s
  {
    hide PutField, PutVersion;
    var a2, b2 := PutField(a.rendezvousHash, r), PutField(b.rendezvousHash, s);
    FieldUnique(a.export_, PutVersion(a.version, a2), b.export_, PutVersion(b.version, b2));
    VersionUnique(a.version, a2, b.version, b2);
    FieldUnique(a.rendezvousHash, r, b.rendezvousHash, s);
  }

  /** Equal session transcripts come from equal sessions: both roles, keys, export and version. */
  lemma {:induction false} SessionTranscriptIsInjective(a: Session, b: Session)
    requires EncodeSession(a) == EncodeSession(b)
    ensures a == b
  {
    hide PutField, PutU64, PutRole, PutAgreement, Ascii;
    var a4, b4 := PutAgreement(a, []), PutAgreement(b, []);
    var a3, b3 := PutRole(RESPONDER_TAG, a.responderIdentity, a.responderEphemeral, a4),
      PutRole(RESPONDER_TAG, b.responderIdentity, b.responderEphemeral, b4);
    var a2, b2 := PutRole(INITIATOR_TAG, a.initiatorIdentity, a.initiatorEphemeral, a3),
      PutRole(INITIATOR_TAG, b.initiatorIdentity, b.initiatorEphemeral, b3);
    var a1, b1 := PutU64(a.generation, a2), PutU64(b.generation, b2);
    SameHead(Ascii(SESSION_DOMAIN), PutField(a.id, a1), Ascii(SESSION_DOMAIN), PutField(b.id, b1));
    FieldUnique(a.id, a1, b.id, b1);
    U64Unique(a.generation, a2, b.generation, b2);
    RoleUnique(INITIATOR_TAG, a.initiatorIdentity, a.initiatorEphemeral, a3,
      b.initiatorIdentity, b.initiatorEphemeral, b3);
    RoleUnique(RESPONDER_TAG, a.responderIdentity, a.responderEphemeral, a4,
      b.responderIdentity, b.responderEphemeral, b4);
    AgreementUnique(a, [], b, []);
  }

  // ---------------------------------------------------------------------------
  // The encoder as the program runs it, appending to a buffer
  // ---------------------------------------------------------------------------

  class Encoder {
    var bytes: Bytes

    constructor (domain: string)
      ensures bytes == Ascii(domain)
    {
      bytes := Ascii(domain);
    }

    method Push(b: Byte)
      modifies this
      ensures forall tail :: bytes + tail == old(bytes) + PutByte(b, tail)
    {
      bytes := bytes + [b];
      assert forall tail: Bytes :: old(bytes) + [b] + tail == old(bytes) + ([b] + tail);
    }

    method AppendInteger(n: nat, width: nat)
      modifies this
      ensures forall tail :: bytes + tail == old(bytes) + (BigEndian(n, width) + tail)
    {
      hide BigEndian;
      bytes := bytes + BigEndian(n, width);
      assert forall tail: Bytes :: old(bytes) + BigEndian(n, width) + tail == old(bytes) + (BigEndian(n, width) + tail);
    }

    method AppendU16(n: U16)
      modifies this
      ensures forall tail :: bytes + tail == old(bytes) + PutU16(n, tail)
    {
      hide BigEndian;
      AppendInteger(n, 2);
    }

    method AppendU32(n: U32)
      modifies this
      ensures forall tail :: bytes + tail == old(bytes) + PutU32(n, tail)
    {
      hide BigEndian;
      AppendInteger(n, 4);
    }

    method AppendU64(n: U64)
      modifies this
      ensures forall tail :: bytes + tail == old(bytes) + PutU64(n, tail)
    {
      hide BigEndian;
      AppendInteger(n, 8);
    }

    method AppendField(f: Field)
      modifies this
      ensures forall tail :: bytes + tail == old(bytes) + PutField(f, tail)
    {
      hide PutU32;
      AppendU32(|f|);
      ghost var mid := bytes;
      bytes := bytes + f;
      forall tail: Bytes ensures bytes + tail == old(bytes) + PutField(f, tail) {
        assert mid + f + tail == mid + (f + tail);
        assert mid + (f + tail) == old(bytes) + PutU32(|f|, f + tail);
      }
    }

    method AppendOptionalField(f: Option<Field>)
      modifies this
      ensures forall tail :: bytes + tail == old(bytes) + PutOptionalField(f, tail)
    {
      hide PutByte, PutField;
      match f {
        case None => Push(0);
        case Some(value) => Push(1); AppendField(value);
      }
    }

    method AppendOptionalProtocol(p: Option<Protocol>)
      modifies this
      ensures forall tail :: bytes + tail == old(bytes) + PutOptionalProtocol(p, tail)
    {
      hide PutByte;
      match p {
        case None => Push(0);
        case Some(value) => Push(1); Push(ProtocolTag(value));
      }
    }

    method AppendOptionalTransport(t: Option<Transport>)
      modifies this
      ensures forall tail :: bytes + tail == old(bytes) + PutOptionalTransport(t, tail)
    {
      hide PutByte;
      match t {
        case None => Push(0);
        case Some(value) => Push(1); Push(TransportTag(value));
      }
    }

    method AppendAddress(a: Address)
      modifies this
      ensures forall tail :: bytes + tail == old(bytes) + PutAddress(a, tail)
    {
      hide PutByte, PutField, PutU16;
      match a {
        case V4(octets, port) => Push(1); AppendField(octets); AppendU16(port);
        case V6(octets, port) => Push(2); AppendField(octets); AppendU16(port);
      }
    }

    method AppendCandidate(c: Candidate)
      modifies this
      ensures forall tail :: bytes + tail == old(bytes) + PutCandidate(c, tail)
    {
      hide PutByte, PutField, PutU32, PutU64, PutAddress;
      Push(TransportTag(c.transport));
      AppendAddress(c.address);
      AppendU32(c.priority);
      AppendField(c.foundation);
      AppendU64(c.generation);
      AppendU64(c.expires);
      AppendField(c.source);
    }

    /** Each pass of the loop moves one candidate from the tail into the buffer. */
    method AppendCandidates(cs: seq<Candidate>)
      modifies this
      ensures forall tail :: bytes + tail == old(bytes) + PutCandidates(cs, tail)
    {
      hide PutCandidate;
      assert cs[0..] == cs;
      for i := 0 to |cs|
        invariant forall tail :: bytes + PutCandidates(cs[i..], tail) == old(bytes) + PutCandidates(cs, tail)
      {
        assert cs[i..][1..] == cs[i + 1..];
        AppendCandidate(cs[i]);
      }
      assert cs[|cs|..] == [];
      assert forall tail :: PutCandidates(cs[|cs|..], tail) == tail;
    }

    method AppendBindings(bs: seq<Binding>)
      modifies this
      ensures forall tail :: bytes + tail == old(bytes) + PutBindings(bs, tail)
    {
      hide PutByte, PutField, TransportTag;
      assert bs[0..] == bs;
      for i := 0 to |bs|
        invariant forall tail :: bytes + PutBindings(bs[i..], tail) == old(bytes) + PutBindings(bs, tail)
      {
        assert bs[i..][1..] == bs[i + 1..];
        Push(TransportTag(bs[i].transport));
        AppendField(bs[i].key);
      }
      assert bs[|bs|..] == [];
      assert forall tail :: PutBindings(bs[|bs|..], tail) == tail;
    }

    method AppendPayload(p: Payload)
      modifies this
      ensures forall tail :: bytes + tail == old(bytes) + PutPayload(p, tail)
    {
      hide PutByte, PutField, PutU16, PutU32, PutOptionalField, PutOptionalProtocol, PutOptionalTransport,
        PutCandidates, PutBindings, Flag;
      Push(PayloadTag(p));
      match p {
        case Request(export_) => AppendField(export_);
        case ProviderDecision(accepted, protocol, detail) =>
          Push(Flag(accepted)); AppendOptionalProtocol(protocol); AppendOptionalField(detail);
        case CandidateSet(key, candidates) =>
          AppendField(key); AppendU32(|candidates|); AppendCandidates(candidates);
        case CandidateSetV2(owner, bindings, candidates) =>
          Push(Flag(owner)); AppendU32(|bindings|); AppendBindings(bindings);
          AppendU32(|candidates|); AppendCandidates(candidates);
        case ConnectivityResult(connected, transport, detail) =>
          Push(Flag(connected)); AppendOptionalTransport(transport); AppendOptionalField(detail);
        case RelayRequest(datagram) => Push(Flag(datagram));
        case Close(detail) => AppendOptionalField(detail);
        case Error(code, reason) => AppendU16(code); AppendField(reason);
      }
    }
  }

  /** The program's encoder produces exactly the specified transcript. */
  method Encode(e: Envelope) returns (encoded: Bytes)
    ensures encoded == EncodeEnvelope(e)
  {
    hide PutField, PutU16, PutU64, PutPayload, Ascii;
    var out := new Encoder(ENVELOPE_DOMAIN);
    out.AppendU16(e.version.major);
    out.AppendU16(e.version.minor);
    out.AppendField(e.session);
    out.AppendField(e.sender);
    out.AppendField(e.target);
    out.AppendU64(e.step);
    out.AppendU64(e.generation);
    out.AppendU64(e.expires);
    out.AppendPayload(e.payload);
    encoded := out.bytes;
    assert encoded + [] == encoded;
  }
}
