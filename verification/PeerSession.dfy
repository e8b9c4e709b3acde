/** The sealer, opener and key-schedule objects, updated in place. */
module PeerSession {
  import opened Wrappers
  import opened ByteCodec
  import opened PeerFrames
  import RW = ReplayWindow

  class PeerFrameSealer {
    const session: Field
    const channel: U64
    const context: Field
    const key: Key
    const mode: Mode
    const prefix: Bytes
    var next: U64
    var exhausted: bool
    var finished: bool

    constructor (context: Field, session: Field, end: End)
      ensures View() == NewSealer(context, session, end)
    {
      hide FrameKey, NoncePrefix;
      this.session, this.channel, this.context := session, end.channel, context;
      key, mode, prefix := FrameKey(context, session, end), end.mode, NoncePrefix(end);
      next, exhausted, finished := 0, false, false;
    }

    function View(): Sealer
      reads this
    {
      Sealer(session, channel, context, key, mode, prefix, next, exhausted, finished)
    }

    /** The sequence number advances only after the frame is complete. */
    method Seal(plaintext: Bytes, flags: Flags) returns (r: Result<Frame, CryptoError>)
      modifies this
      ensures View() == PeerFrames.Seal(old(View()), plaintext, flags).sealer
      ensures r == PeerFrames.Seal(old(View()), plaintext, flags).frame
      ensures r.Err? && channel != 0 ==> View() == old(View())
    {
      hide FrameNonce, FrameAad, FrameKey;
      if |plaintext| > SaturatingSub(MAX_PEER_RELAY_CIPHERTEXT_BYTES, AEAD_TAG_BYTES) {
        return Err(FrameTooLarge);
      }
      if !ValidFlags(mode, flags) {
        return Err(InvalidFrameContext);
      }
      if mode.Ordered? && finished {
        return Err(InvalidFlagTransition);
      }
      if exhausted {
        return Err(SequenceExhausted);
      }
      var sequence := next;
      var ciphertext :=
        Sealed(key, FrameNonce(prefix, sequence), FrameAad(context, session, channel, flags, sequence), plaintext);
      var frame := NewFrame(session, channel, sequence, flags, ciphertext);
      if frame.None? {
        return Err(FrameTooLarge);
      }
      if sequence < U64_MAX {
        next := sequence + 1;
      } else {
        exhausted := true;
      }
      finished := finished || HasFin(flags);
      r := Ok(frame.value);
    }
  }

  class PeerFrameOpener {
    const session: Field
    const channel: U64
    const context: Field
    const key: Key
    const mode: Mode
    const prefix: Bytes
    var state: ReceiveState
    var finished: bool

    constructor (context: Field, session: Field, end: End)
      ensures View() == NewOpener(context, session, end)
    {
      hide FrameKey, NoncePrefix;
      this.session, this.channel, this.context := session, end.channel, context;
      key, mode, prefix := FrameKey(context, session, end), end.mode, NoncePrefix(end);
      state := if end.mode.Ordered? then InOrder(0, false) else Windowed(RW.Window(None, 0));
      finished := false;
    }

    function View(): Opener
      reads this
    {
      Opener(session, channel, context, key, mode, prefix, state, finished)
    }

    /** The receive state moves only after the frame has authenticated. */
    method Open(f: Frame) returns (r: Result<Bytes, CryptoError>)
      modifies this
      ensures View() == PeerFrames.Open(old(View()), f).opener
      ensures r == PeerFrames.Open(old(View()), f).plaintext
      ensures r.Err? ==> View() == old(View())
    {
      hide FrameNonce, FrameAad, FrameKey, ReceiveSequence, Decrypt;
      if f.session != session || f.channel != channel {
        return Err(FrameContextMismatch);
      }
      if !ValidFlags(mode, f.flags) {
        return Err(InvalidFrameContext);
      }
      var next := ReceiveSequence(state, f.sequence);
      if next.Err? {
        return Err(next.error);
      }
      if mode.Ordered? && finished {
        return Err(InvalidFlagTransition);
      }
      var aad := FrameAad(context, f.session, f.channel, f.flags, f.sequence);
      var plaintext := Decrypt(key, FrameNonce(prefix, f.sequence), aad, f.ciphertext);
      if plaintext.None? {
        return Err(FrameAuthenticationFailed);
      }
      state := next.value;
      finished := finished || HasFin(f.flags);
      r := Ok(plaintext.value);
    }
  }

  datatype Domain = Domain(mode: Mode, channel: U64)

  /** Issues each sealing domain and each opening domain at most once. */
  class PeerSessionKeys {
    const role: Role
    const session: Field
    const context: Field
    var issuedSealers: set<Domain>
    var issuedOpeners: set<Domain>

    constructor (role: Role, context: Field, session: Field)
      ensures this.role == role && this.context == context && this.session == session
      ensures issuedSealers == {} && issuedOpeners == {}
    {
      this.role, this.context, this.session := role, context, session;
      issuedSealers, issuedOpeners := {}, {};
    }

    function Peer(): (r: Role)
      ensures r != role
    {
      if role.Initiator? then Responder else Initiator
    }

    method IssueSealer(mode: Mode, channel: U64) returns (r: Result<PeerFrameSealer, CryptoError>)
      modifies this`issuedSealers
      ensures channel == 0 <==> r == Err(InvalidFrameContext)
      ensures channel != 0 && Domain(mode, channel) in old(issuedSealers) <==> r == Err(DomainAlreadyIssued)
      ensures r.Err? ==> issuedSealers == old(issuedSealers)
      ensures r.Ok? ==> issuedSealers == old(issuedSealers) + {Domain(mode, channel)}
      ensures r.Ok? ==> fresh(r.value) && r.value.View() == NewSealer(context, session, End(role, mode, channel))
    {
      hide NewSealer, NewOpener;
      if channel == 0 {
        return Err(InvalidFrameContext);
      }
      var domain := Domain(mode, channel);
      if domain in issuedSealers {
        return Err(DomainAlreadyIssued);
      }
      issuedSealers := issuedSealers + {domain};
      var sealer := new PeerFrameSealer(context, session, End(role, mode, channel));
      r := Ok(sealer);
    }

    method IssueOpener(mode: Mode, channel: U64) returns (r: Result<PeerFrameOpener, CryptoError>)
      modifies this`issuedOpeners
      ensures channel == 0 <==> r == Err(InvalidFrameContext)
      ensures channel != 0 && Domain(mode, channel) in old(issuedOpeners) <==> r == Err(DomainAlreadyIssued)
      ensures r.Err? ==> issuedOpeners == old(issuedOpeners)
      ensures r.Ok? ==> issuedOpeners == old(issuedOpeners) + {Domain(mode, channel)}
      ensures r.Ok? ==> fresh(r.value) && r.value.View() == NewOpener(context, session, End(Peer(), mode, channel))
    {
      hide NewSealer, NewOpener;
      if channel == 0 {
        return Err(InvalidFrameContext);
      }
      var domain := Domain(mode, channel);
      if domain in issuedOpeners {
        return Err(DomainAlreadyIssued);
      }
      issuedOpeners := issuedOpeners + {domain};
      var opener := new PeerFrameOpener(context, session, End(Peer(), mode, channel));
      r := Ok(opener);
    }
  }
}
