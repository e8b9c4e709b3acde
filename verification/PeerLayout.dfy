/**
 The constants of the peer protocol on the wire: tags, nonces, flags and bounds. The
 injectivity of the encodings holds for any distinct tags; this says which ones they are.
 */
module PeerLayout {
  import opened Wrappers
  import opened ByteCodec
  import opened PeerTranscript
  import opened PeerFrames
  import RW = ReplayWindow

  /** A nonce is twelve bytes: mode, direction, two zeros and the sequence number. */
  lemma NonceLayout(end: End, sequence: U64)
    ensures var nonce := FrameNonce(NoncePrefix(end), sequence);
      && |nonce| == 12 && FromBigEndian(nonce[4..12]) == sequence
      && nonce[0] == (match end.mode case Ordered => 1 case Datagram => 2)
      && nonce[1] == (match end.sender case Initiator => 1 case Responder => 2)
      && nonce[2] == nonce[3] == 0
  {
    hide BigEndian, FromBigEndian;
    Widths();
    BigEndianRoundTrip(sequence, 8);
    assert FrameNonce(NoncePrefix(end), sequence)[4..12] == BigEndian(sequence, 8);
  }

  /** Flag bit two is FIN; streams carry RELIABLE with or without it, datagrams DATAGRAM alone. */
  lemma FlagTable(flags: Flags)
    ensures HasFin(flags) <==> flags in {4, 5, 6, 7}
    ensures ValidFlags(Ordered, flags) <==> flags in {1, 5}
    ensures ValidFlags(Datagram, flags) <==> flags == 2
  {
  }

  /** A relay frame has a channel and at most 64 KiB of ciphertext, tag included. */
  lemma RelayFrameIff(session: Field, channel: U64, sequence: U64, flags: Flags, c: Ciphertext)
    ensures NewFrame(session, channel, sequence, flags, c).Some? <==>
      channel != 0 && (match c case Sealed(_, _, _, p) => |p| <= 65_520 case Junk(b) => |b| <= 65_536)
    ensures NewFrame(session, channel, sequence, flags, c).Some? ==>
      NewFrame(session, channel, sequence, flags, c).value == Frame(session, channel, sequence, flags, c)
  {
  }

  /** A payload starts with the number of its kind, a candidate with those of transport and address family. */
  lemma KindTable(p: Payload, c: Candidate, tail: Bytes)
    ensures PutPayload(p, tail)[..1] == [
      match p
      case Request(_) => 1
      case ProviderDecision(_, _, _) => 2
      case CandidateSet(_, _) => 3
      case ConnectivityResult(_, _, _) => 4
      case RelayRequest(_) => 5
      case Close(_) => 6
      case Error(_, _) => 7
      case CandidateSetV2(_, _, _) => 8]
    ensures PutCandidate(c, tail)[..2] == [
      match c.transport case QuicUdp => 1 case NativeTcp => 2 case Relay => 3,
      match c.address case V4(_, _) => 1 case V6(_, _) => 2]
  {
    hide PutPayloadBody, AddressRest, PutDetails;
  }

  /** Options and booleans are one byte, zero or one; a present value follows its byte. */
  lemma OptionLayout(p: Protocol, b: bool, tail: Bytes)
    ensures PutOptionalProtocol(None, tail) == [0] + tail
    ensures PutOptionalProtocol(Some(p), tail) == [1, match p case Tcp => 1 case Udp => 2] + tail
    ensures PutPayloadBody(RelayRequest(b), tail) == [match b case false => 0 case true => 1] + tail
  {
  }
}
