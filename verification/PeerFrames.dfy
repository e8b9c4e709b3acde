/**
 Sealing and opening of peer frames. The AEAD is ideal: a ciphertext is a record of what
 was sealed, or junk, and it opens only under the key, nonce and associated data it was
 sealed with. Expanded keys are terms over their base label and info string.
 */
module PeerFrames {
  import opened Wrappers
  import opened ByteCodec
  import opened PeerTranscript
  import RW = ReplayWindow

  const FRAME_DOMAIN: string := "rustgo-peer-frame-v1"
  const FRAME_KEY_DOMAIN: string := "rustgo-peer-frame-key-v1"
  const MAX_PEER_RELAY_CIPHERTEXT_BYTES: nat := 65_536
  const AEAD_TAG_BYTES: nat := 16

  datatype Role = Initiator | Responder
  datatype Mode = Ordered | Datagram

  type Flags = n: Byte | n < 8
  const RELIABLE: Flags := 1
  const DATAGRAM: Flags := 2
  const RELIABLE_FIN: Flags := 5

  /** The session's base key for one mode and direction, expanded under its own label. */
  datatype BaseKey = BaseKey(mode: Mode, sender: Role)

  /** A frame key: expanded from the base key of a label under an info string. */
  datatype Key = Derived(name: string, info: Bytes)

  datatype Ciphertext =
    | Sealed(key: Key, nonce: Bytes, aad: Bytes, plaintext: Bytes)
    | Junk(bytes: Bytes)

  datatype Frame = Frame(session: Field, channel: U64, sequence: U64, flags: Flags, ciphertext: Ciphertext)

  datatype CryptoError =
    | FrameTooLarge | InvalidFrameContext | InvalidFlagTransition | SequenceExhausted
    | FrameContextMismatch | Replay | UnexpectedSequence | FrameAuthenticationFailed | DomainAlreadyIssued

  /** One direction of one channel: who seals it, how it is ordered, and its number. */
  datatype End = End(sender: Role, mode: Mode, channel: U64)

  function CiphertextLength(c: Ciphertext): nat {
    match c
    case Sealed(_, _, _, plaintext) => |plaintext| + AEAD_TAG_BYTES
    case Junk(bytes) => |bytes|
  }

  function Decrypt(key: Key, nonce: Bytes, aad: Bytes, c: Ciphertext): Option<Bytes> {
    if c.Sealed? && c.key == key && c.nonce == nonce && c.aad == aad then Some(c.plaintext) else None
  }

  // ---------------------------------------------------------------------------
  // Keys, nonces and associated data
  // ---------------------------------------------------------------------------

  function RoleTag(r: Role): Byte {
    if r.Initiator? then 1 else 2
  }

  function ModeTag(m: Mode): Byte {
    if m.Ordered? then 1 else 2
  }

  function BaseLabel(base: BaseKey): string {
    match base.mode
    case Ordered =>
      if base.sender.Initiator? then "rustgo-peer-stream-initiator-to-responder-v1"
        else "rustgo-peer-stream-responder-to-initiator-v1"
    case Datagram =>
      if base.sender.Initiator? then "rustgo-peer-datagram-initiator-to-responder-v1"
        else "rustgo-peer-datagram-responder-to-initiator-v1"
  }

  function FrameInfo(context: Field, session: Field, mode: Mode, channel: U64): Bytes {
    Ascii(FRAME_KEY_DOMAIN) + PutField(context, PutField(session, PutByte(ModeTag(mode), PutU64(channel, []))))
  }

  function FrameKey(context: Field, session: Field, end: End): Key {
    Derived(BaseLabel(BaseKey(end.mode, end.sender)), FrameInfo(context, session, end.mode, end.channel))
  }

  function NoncePrefix(end: End): Bytes {
    [ModeTag(end.mode), RoleTag(end.sender), 0, 0]
  }

  function FrameNonce(prefix: Bytes, sequence: U64): Bytes {
    prefix + BigEndian(sequence, 8)
  }

  function FrameAad(context: Field, session: Field, channel: U64, flags: Flags, sequence: U64): Bytes {
    Ascii(FRAME_DOMAIN) + PutField(context, PutField(session, PutU64(channel, PutByte(flags, PutU64(sequence, [])))))
  }

  lemma LabelLetters(k: BaseKey)
    ensures |BaseLabel(k)| > 21
    ensures BaseLabel(k)[12] == if k.mode.Ordered? then 's' else 'd'
    ensures BaseLabel(k)[if k.mode.Ordered? then 19 else 21] == if k.sender.Initiator? then 'i' else 'r'
  {
  }

  /** The four base keys are expanded under different labels, so they are different keys. */
  lemma BaseLabelsDiffer(a: BaseKey, b: BaseKey)
    requires BaseLabel(a) == BaseLabel(b)
    ensures a == b
  {
    hide BaseLabel;
    LabelLetters(a);
    LabelLetters(b);
  }

  /** Different ends of one key schedule never share a frame key. */
  lemma FrameKeyUnique(context: Field, session: Field, a: End, b: End)
    requires FrameKey(context, session, a) == FrameKey(context, session, b)
    ensures a == b
  {
    hide PutField, PutU64, PutByte, Ascii, BaseLabel;
    BaseLabelsDiffer(BaseKey(a.mode, a.sender), BaseKey(b.mode, b.sender));
    var a3, b3 := PutByte(ModeTag(a.mode), PutU64(a.channel, [])), PutByte(ModeTag(b.mode), PutU64(b.channel, []));
    var a2, b2 := PutField(session, a3), PutField(session, b3);
    SameHead(Ascii(FRAME_KEY_DOMAIN), PutField(context, a2), Ascii(FRAME_KEY_DOMAIN), PutField(context, b2));
    FieldUnique(context, a2, context, b2);
    FieldUnique(session, a3, session, b3);
    ByteUnique(ModeTag(a.mode), PutU64(a.channel, []), ModeTag(b.mode), PutU64(b.channel, []));
    U64Unique(a.channel, [], b.channel, []);
  }

  lemma FrameNonceUnique(prefix: Bytes, a: U64, b: U64)
    requires FrameNonce(prefix, a) == FrameNonce(prefix, b)
    ensures a == b
  {
    hide BigEndian;
    SameHead(prefix, BigEndian(a, 8), prefix, BigEndian(b, 8));
    assert BigEndian(a, 8) + [] == BigEndian(b, 8) + [];
    U64Unique(a, [], b, []);
  }

  lemma FrameAadUnique(context: Field, session: Field, channel: U64, f: Flags, m: U64, g: Flags, n: U64)
    requires FrameAad(context, session, channel, f, m) == FrameAad(context, session, channel, g, n)
    ensures f == g && m == n
  {
    hide PutField, PutU64, PutByte, Ascii;
    var a3, b3 := PutByte(f, PutU64(m, [])), PutByte(g, PutU64(n, []));
    var a2, b2 := PutU64(channel, a3), PutU64(channel, b3);
    var a1, b1 := PutField(session, a2), PutField(session, b2);
    SameHead(Ascii(FRAME_DOMAIN), PutField(context, a1), Ascii(FRAME_DOMAIN), PutField(context, b1));
    FieldUnique(context, a1, context, b1);
    FieldUnique(session, a2, session, b2);
    U64Unique(channel, a3, channel, b3);
    ByteUnique(f, PutU64(m, []), g, PutU64(n, []));
    U64Unique(m, [], n, []);
  }

  // ---------------------------------------------------------------------------
  // Sealing
  // ---------------------------------------------------------------------------

  predicate HasFin(flags: Flags) {
    flags / 4 % 2 == 1
  }

  predicate ValidFlags(mode: Mode, flags: Flags) {
    match mode
    case Ordered => flags == RELIABLE || flags == RELIABLE_FIN
    case Datagram => flags == DATAGRAM
  }

  datatype Sealer = Sealer(
    session: Field, channel: U64, context: Field, key: Key, mode: Mode, prefix: Bytes,
    next: U64, exhausted: bool, finished: bool)

  /** What one seal call did: `used` is the encryption it performed, if any. */
  datatype Sealing = Sealing(sealer: Sealer, used: Option<Ciphertext>, frame: Result<Frame, CryptoError>)

  /** The relay frame constructor refuses channel zero and oversized ciphertexts. */
  function NewFrame(session: Field, channel: U64, sequence: U64, flags: Flags, c: Ciphertext): Option<Frame> {
    if channel == 0 || CiphertextLength(c) > MAX_PEER_RELAY_CIPHERTEXT_BYTES then None
    else Some(Frame(session, channel, sequence, flags, c))
  }

  function Advanced(s: Sealer, flags: Flags): Sealer {
    if s.next < U64_MAX then s.(next := s.next + 1, finished := s.finished || HasFin(flags))
    else s.(exhausted := true, finished := s.finished || HasFin(flags))
  }

  function Seal(s: Sealer, plaintext: Bytes, flags: Flags): Sealing {
    if |plaintext| > MAX_PEER_RELAY_CIPHERTEXT_BYTES - AEAD_TAG_BYTES then Sealing(s, None, Err(FrameTooLarge))
    else if !ValidFlags(s.mode, flags) then Sealing(s, None, Err(InvalidFrameContext))
    else if s.mode.Ordered? && s.finished then Sealing(s, None, Err(InvalidFlagTransition))
    else if s.exhausted then Sealing(s, None, Err(SequenceExhausted))
    else
      var c := Sealed(s.key, FrameNonce(s.prefix, s.next), FrameAad(s.context, s.session, s.channel, flags, s.next),
        plaintext);
      match NewFrame(s.session, s.channel, s.next, flags, c)
      case None => Sealing(s, Some(c), Err(FrameTooLarge))
      case Some(frame) => Sealing(Advanced(s, flags), Some(c), Ok(frame))
  }

  /**
   Nothing after the encryption can fail: on an issued channel a seal call either encrypts
   once and advances, or encrypts nothing and leaves the sealer as it was.
   */
  lemma EncryptionAlwaysAdvances(s: Sealer, plaintext: Bytes, flags: Flags)
    requires s.channel != 0
    ensures var r := Seal(s, plaintext, flags);
      && (r.used.Some? <==> r.frame.Ok?)
      && (r.frame.Err? ==> r.sealer == s)
      && (r.frame.Ok? ==> r.sealer != s && !s.exhausted && (r.sealer.exhausted || r.sealer.next == s.next + 1))
      && (s.exhausted ==> r.frame.Err? && r.sealer == s)
      && (r.frame.Ok? <==>
            && |plaintext| + AEAD_TAG_BYTES <= MAX_PEER_RELAY_CIPHERTEXT_BYTES && ValidFlags(s.mode, flags)
            && !(s.mode.Ordered? && s.finished) && !s.exhausted)
  {
    hide FrameNonce, FrameAad, FrameKey, NoncePrefix, HasFin, ValidFlags;
  }

  // ---------------------------------------------------------------------------
  // Opening
  // ---------------------------------------------------------------------------

  datatype ReceiveState = InOrder(expected: U64, exhausted: bool) | Windowed(window: RW.Window)

  datatype Opener = Opener(
    session: Field, channel: U64, context: Field, key: Key, mode: Mode, prefix: Bytes,
    state: ReceiveState, finished: bool)

  datatype Opening = Opening(opener: Opener, plaintext: Result<Bytes, CryptoError>)

  function ReceiveSequence(state: ReceiveState, sequence: U64): Result<ReceiveState, CryptoError> {
    match state
    case InOrder(expected, true) => Err(if sequence == U64_MAX then Replay else SequenceExhausted)
    case InOrder(expected, false) =>
      if sequence < expected then Err(Replay)
      else if sequence > expected then Err(UnexpectedSequence)
      else if expected < U64_MAX then Ok(InOrder(expected + 1, false))
      else Ok(InOrder(expected, true))
    case Windowed(window) =>
      match RW.Accept(window, sequence)
      case None => Err(Replay)
      case Some(next) => Ok(Windowed(next))
  }

  function Open(o: Opener, f: Frame): (r: Opening)
    ensures r.plaintext.Err? ==> r.opener == o
  {
    if f.session != o.session || f.channel != o.channel then Opening(o, Err(FrameContextMismatch))
    else if !ValidFlags(o.mode, f.flags) then Opening(o, Err(InvalidFrameContext))
    else
      match ReceiveSequence(o.state, f.sequence)
      case Err(e) => Opening(o, Err(e))
      case Ok(next) =>
        if o.mode.Ordered? && o.finished then Opening(o, Err(InvalidFlagTransition))
        else
          var aad := FrameAad(o.context, f.session, f.channel, f.flags, f.sequence);
          match Decrypt(o.key, FrameNonce(o.prefix, f.sequence), aad, f.ciphertext)
          case None => Opening(o, Err(FrameAuthenticationFailed))
          case Some(plaintext) => Opening(o.(state := next, finished := o.finished || HasFin(f.flags)), Ok(plaintext))
  }

  function NewSealer(context: Field, session: Field, end: End): Sealer {
    Sealer(session, end.channel, context, FrameKey(context, session, end), end.mode, NoncePrefix(end), 0, false, false)
  }

  function NewOpener(context: Field, session: Field, end: End): Opener {
    var state := if end.mode.Ordered? then InOrder(0, false) else Windowed(RW.Window(None, 0));
    Opener(session, end.channel, context, FrameKey(context, session, end), end.mode, NoncePrefix(end), state, false)
  }
}
