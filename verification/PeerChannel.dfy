/**
 Every run of both peers of one key schedule over a network that drops, duplicates,
 reorders and injects frames.
 */
module PeerChannel {
  import opened Wrappers
  import opened ByteCodec
  import opened PeerFrames
  import RW = ReplayWindow

  datatype Message = Message(flags: Flags, plaintext: Bytes)

  /** An issued sealer and what it has sealed so far, in order. */
  datatype Sending = Sending(sealer: Sealer, sent: seq<Message>)

  /** A message handed to the application and the sequence number it came under. */
  datatype Delivery = Delivery(index: nat, message: Message)

  datatype Receiving = Receiving(opener: Opener, delivered: seq<Delivery>)

  /** One encryption: which end performed it, at which position. */
  datatype Encryption = Encryption(end: End, index: nat, ciphertext: Ciphertext)

  datatype World = World(
    context: Field, session: Field,
    sending: map<End, Sending>, receiving: map<End, Receiving>, log: seq<Encryption>)

  datatype Step =
    | IssueSealer(end: End)
    | IssueOpener(end: End)
    | SealMessage(end: End, message: Message)
    | Deliver(end: End, frame: Frame)

  // ---------------------------------------------------------------------------
  // Steps
  // ---------------------------------------------------------------------------

  function Start(context: Field, session: Field): World {
    World(context, session, map[], map[], [])
  }

  function DoSeal(w: World, end: End, m: Message): World
    requires end in w.sending
  {
    var side := w.sending[end];
    var r := Seal(side.sealer, m.plaintext, m.flags);
    var sent := if r.frame.Ok? then side.sent + [m] else side.sent;
    var log := if r.used.Some? then w.log + [Encryption(end, |side.sent|, r.used.value)] else w.log;
    w.(sending := w.sending[end := Sending(r.sealer, sent)], log := log)
  }

  function DoOpen(w: World, end: End, f: Frame): World
    requires end in w.receiving
  {
    var side := w.receiving[end];
    var r := Open(side.opener, f);
    var delivered := if r.plaintext.Ok?
      then side.delivered + [Delivery(f.sequence, Message(f.flags, r.plaintext.value))] else side.delivered;
    w.(receiving := w.receiving[end := Receiving(r.opener, delivered)])
  }

  /** The network can replay any ciphertext it has seen and invent any other bytes. */
  predicate CanArrive(w: World, f: Frame) {
    f.ciphertext.Sealed? ==> exists e | e in w.log :: e.ciphertext == f.ciphertext
  }

  function Apply(w: World, step: Step): World {
    match step
    case IssueSealer(end) =>
      if end.channel == 0 || end in w.sending then w
      else w.(sending := w.sending[end := Sending(NewSealer(w.context, w.session, end), [])])
    case IssueOpener(end) =>
      if end.channel == 0 || end in w.receiving then w
      else w.(receiving := w.receiving[end := Receiving(NewOpener(w.context, w.session, end), [])])
    case SealMessage(end, m) => if end in w.sending then DoSeal(w, end, m) else w
    case Deliver(end, f) => if end in w.receiving && CanArrive(w, f) then DoOpen(w, end, f) else w
  }

  function Run(context: Field, session: Field, steps: seq<Step>): World {
    if steps == [] then Start(context, session)
      else Apply(Run(context, session, steps[..|steps| - 1]), steps[|steps| - 1])
  }

  // ---------------------------------------------------------------------------
  // The invariant
  // ---------------------------------------------------------------------------

  function SentBy(w: World, end: End): seq<Message> {
    if end in w.sending then w.sending[end].sent else []
  }

  ghost predicate FinIsLast(messages: seq<Message>) {
    forall i | 0 <= i < |messages| - 1 :: !HasFin(messages[i].flags)
  }

  predicate EndsInFin(messages: seq<Message>) {
    messages != [] && HasFin(messages[|messages| - 1].flags)
  }

  /** The sealer's fixed fields are those of its end. */
  predicate SealerFits(context: Field, session: Field, end: End, s: Sealer) {
    && end.channel != 0 && s.session == session && s.context == context && s.channel == end.channel
    && s.key == FrameKey(context, session, end) && s.mode == end.mode && s.prefix == NoncePrefix(end)
  }

  ghost predicate SendingOk(context: Field, session: Field, end: End, side: Sending) {
    && SealerFits(context, session, end, side.sealer)
    && |side.sent| == side.sealer.next + (if side.sealer.exhausted then 1 else 0)
    && (side.sealer.exhausted ==> side.sealer.next == U64_MAX)
    && (side.sealer.finished <==> EndsInFin(side.sent))
    && (forall m | m in side.sent :: ValidFlags(end.mode, m.flags))
    && FinIsLast(side.sent)
  }

  /** What sealing message `m` at position `n` of an end encrypts. */
  function CiphertextOf(context: Field, session: Field, end: End, n: U64, m: Message): Ciphertext {
    Sealed(FrameKey(context, session, end), FrameNonce(NoncePrefix(end), n),
           FrameAad(context, session, end.channel, m.flags, n), m.plaintext)
  }

  ghost predicate Logged(w: World, e: Encryption) {
    && e.index < |SentBy(w, e.end)| && e.index <= U64_MAX
    && e.ciphertext == CiphertextOf(w.context, w.session, e.end, e.index, SentBy(w, e.end)[e.index])
  }

  ghost predicate LogOk(w: World) {
    && (forall e | e in w.log :: Logged(w, e))
    && (forall i, j | 0 <= i < j < |w.log| :: w.log[i].end != w.log[j].end || w.log[i].index != w.log[j].index)
  }

  predicate OpenerFits(context: Field, session: Field, end: End, o: Opener) {
    && end.channel != 0 && o.session == session && o.context == context && o.channel == end.channel
    && o.key == FrameKey(context, session, end) && o.mode == end.mode && o.prefix == NoncePrefix(end)
  }

  function Indices(delivered: seq<Delivery>): set<U64> {
    set d | d in delivered && d.index <= U64_MAX :: d.index
  }

  /** The receive state says exactly which positions have been opened. */
  ghost predicate Progress(end: End, o: Opener, delivered: seq<Delivery>) {
    match end.mode
    case Ordered =>
      && o.state.InOrder?
      && |delivered| == o.state.expected + (if o.state.exhausted then 1 else 0)
      && (o.state.exhausted ==> o.state.expected == U64_MAX)
      && (forall i | 0 <= i < |delivered| :: delivered[i].index == i)
      && (o.finished <==> delivered != [] && HasFin(delivered[|delivered| - 1].message.flags))
    case Datagram =>
      && o.state.Windowed?
      && RW.Represents(o.state.window, Indices(delivered))
      && (forall i, j | 0 <= i < j < |delivered| :: delivered[i].index != delivered[j].index)
  }

  /** Every delivery is what the sender sealed at that position. */
  ghost predicate Genuine(sent: seq<Message>, delivered: seq<Delivery>) {
    forall d | d in delivered :: d.index < |sent| && d.index <= U64_MAX && d.message == sent[d.index]
  }

  ghost predicate ReceivingOk(w: World, end: End, side: Receiving) {
    && OpenerFits(w.context, w.session, end, side.opener)
    && Genuine(SentBy(w, end), side.delivered)
    && Progress(end, side.opener, side.delivered)
  }

  ghost predicate Inv(w: World) {
    && (forall end | end in w.sending :: SendingOk(w.context, w.session, end, w.sending[end]))
    && (forall end | end in w.receiving :: ReceivingOk(w, end, w.receiving[end]))
    && LogOk(w)
  }

  // ---------------------------------------------------------------------------
  // Sealing
  // ---------------------------------------------------------------------------

  lemma SealKeepsSending(context: Field, session: Field, end: End, side: Sending, m: Message)
    requires SendingOk(context, session, end, side)
    ensures var r := Seal(side.sealer, m.plaintext, m.flags);
      SendingOk(context, session, end, Sending(r.sealer, if r.frame.Ok? then side.sent + [m] else side.sent))
  {
    hide FrameKey, NoncePrefix, FrameNonce, FrameAad;
    EncryptionAlwaysAdvances(side.sealer, m.plaintext, m.flags);
  }

  lemma SealUses(context: Field, session: Field, end: End, side: Sending, m: Message)
    requires SendingOk(context, session, end, side)
    ensures var r := Seal(side.sealer, m.plaintext, m.flags);
      && (r.used.Some? <==> r.frame.Ok?)
      && (r.used.Some? ==>
        |side.sent| <= U64_MAX && r.used.value == CiphertextOf(context, session, end, |side.sent|, m))
  {
    hide FrameKey, NoncePrefix, FrameNonce, FrameAad;
    EncryptionAlwaysAdvances(side.sealer, m.plaintext, m.flags);
  }

  lemma SealGrows(w: World, end: End, m: Message, other: End)
    requires end in w.sending
    ensures SentBy(w, other) <= SentBy(DoSeal(w, end, m), other)
  {
    hide Seal;
  }

  lemma LoggedKept(w: World, w': World, e: Encryption)
    requires Logged(w, e) && SentBy(w, e.end) <= SentBy(w', e.end) && w'.context == w.context && w'.session == w.session
    ensures Logged(w', e)
  {
    hide CiphertextOf, SentBy;
  }

  lemma SealLogs(w: World, end: End, m: Message)
    requires end in w.sending && SendingOk(w.context, w.session, end, w.sending[end])
    requires Seal(w.sending[end].sealer, m.plaintext, m.flags).used.Some?
    ensures Logged(DoSeal(w, end, m),
      Encryption(end, |w.sending[end].sent|, Seal(w.sending[end].sealer, m.plaintext, m.flags).used.value))
  {
    SealUses(w.context, w.session, end, w.sending[end], m);
    hide Seal, CiphertextOf, SendingOk;
    var sent := w.sending[end].sent;
    assert SentBy(DoSeal(w, end, m), end) == sent + [m];
  }

  lemma SealKeepsLog(w: World, end: End, m: Message)
    requires LogOk(w) && end in w.sending && SendingOk(w.context, w.session, end, w.sending[end])
    ensures LogOk(DoSeal(w, end, m))
  {
    hide Seal, Logged, SentBy, SendingOk;
    var w', side := DoSeal(w, end, m), w.sending[end];
    var used := Seal(side.sealer, m.plaintext, m.flags).used;
    forall e | e in w'.log ensures Logged(w', e) {
      if e in w.log {
        SealGrows(w, end, m, e.end);
        LoggedKept(w, w', e);
      } else {
        SealLogs(w, end, m);
      }
    }
    forall i, j | 0 <= i < j < |w'.log| ensures w'.log[i].end != w'.log[j].end || w'.log[i].index != w'.log[j].index {
      if j == |w.log| {
        assert w.log[i] in w.log;
        LoggedIsEarlier(w, w.log[i], end);
      }
    }
  }

  lemma LoggedIsEarlier(w: World, e: Encryption, end: End)
    requires Logged(w, e) && end in w.sending
    ensures e.end == end ==> e.index < |w.sending[end].sent|
  {
    hide CiphertextOf;
  }

  lemma SealKeepsReceiving(w: World, end: End, m: Message, other: End)
    requires end in w.sending && other in w.receiving && ReceivingOk(w, other, w.receiving[other])
    ensures ReceivingOk(DoSeal(w, end, m), other, w.receiving[other])
  {
    hide Seal, OpenerFits, Progress;
    assert SentBy(w, other) <= SentBy(DoSeal(w, end, m), other);
  }

  lemma SealKeepsInv(w: World, end: End, m: Message)
    requires Inv(w) && end in w.sending
    ensures Inv(DoSeal(w, end, m))
  {
    hide SendingOk, ReceivingOk, LogOk, Seal;
    var w' := DoSeal(w, end, m);
    forall other | other in w'.receiving ensures ReceivingOk(w', other, w'.receiving[other]) {
      SealKeepsReceiving(w, end, m, other);
    }
    SealKeepsSending(w.context, w.session, end, w.sending[end], m);
    SealKeepsLog(w, end, m);
  }

  // ---------------------------------------------------------------------------
  // Opening
  // ---------------------------------------------------------------------------

  /** What authenticates is exactly what the end sealed at that position. */
  lemma AuthenticIsSealed(w: World, end: End, f: Frame)
    requires LogOk(w) && CanArrive(w, f)
    requires Decrypt(FrameKey(w.context, w.session, end), FrameNonce(NoncePrefix(end), f.sequence),
                     FrameAad(w.context, w.session, end.channel, f.flags, f.sequence), f.ciphertext).Some?
    ensures f.sequence < |SentBy(w, end)| && SentBy(w, end)[f.sequence] == Message(f.flags, f.ciphertext.plaintext)
  {
    hide FrameKey, FrameNonce, FrameAad, NoncePrefix;
    var e :| e in w.log && e.ciphertext == f.ciphertext;
    assert Logged(w, e);
    var m := SentBy(w, e.end)[e.index];
    FrameKeyUnique(w.context, w.session, e.end, end);
    FrameNonceUnique(NoncePrefix(end), e.index, f.sequence);
    FrameAadUnique(w.context, w.session, end.channel, m.flags, e.index, f.flags, f.sequence);
  }

  /** A successful open went through every check. */
  lemma OpenedFacts(o: Opener, f: Frame)
    requires Open(o, f).plaintext.Ok?
    ensures ReceiveSequence(o.state, f.sequence).Ok? && ValidFlags(o.mode, f.flags)
    ensures Open(o, f).opener ==
      o.(state := ReceiveSequence(o.state, f.sequence).value, finished := o.finished || HasFin(f.flags))
    ensures o.mode.Ordered? ==> !o.finished
    ensures f.session == o.session && f.channel == o.channel
    ensures Decrypt(o.key, FrameNonce(o.prefix, f.sequence),
      FrameAad(o.context, o.session, o.channel, f.flags, f.sequence), f.ciphertext)
            == Some(Open(o, f).plaintext.value)
  {
    hide FrameNonce, FrameAad, ReceiveSequence;
  }

  lemma OpenKeepsProgress(end: End, o: Opener, delivered: seq<Delivery>, f: Frame, m: Message)
    requires Progress(end, o, delivered) && o.mode == end.mode
    requires ReceiveSequence(o.state, f.sequence).Ok? && m.flags == f.flags && ValidFlags(o.mode, f.flags)
    requires o.mode.Ordered? ==> !o.finished
    ensures Progress(end,
      o.(state := ReceiveSequence(o.state, f.sequence).value, finished := o.finished || HasFin(f.flags)),
                     delivered + [Delivery(f.sequence, m)])
  {
    if end.mode.Datagram? {
      hide RW.Represents, RW.Accept;
      var more := delivered + [Delivery(f.sequence, m)];
      IndicesGrow(delivered, Delivery(f.sequence, m));
      RW.AcceptsExactlyFresh(o.state.window, Indices(delivered), f.sequence);
      RW.AcceptKeepsRepresents(o.state.window, Indices(delivered), f.sequence);
      assert f.sequence !in Indices(delivered);
      forall i | 0 <= i < |delivered| ensures delivered[i].index != f.sequence {
        assert delivered[i] in delivered;
      }
    }
  }

  lemma IndicesGrow(delivered: seq<Delivery>, d: Delivery)
    requires d.index <= U64_MAX
    ensures Indices(delivered + [d]) == Indices(delivered) + {d.index}
  {
  }

  lemma OpenKeepsReceiving(w: World, end: End, side: Receiving, f: Frame)
    requires LogOk(w) && CanArrive(w, f) && ReceivingOk(w, end, side) && Open(side.opener, f).plaintext.Ok?
    ensures var r := Open(side.opener, f);
      ReceivingOk(w, end,
        Receiving(r.opener, side.delivered + [Delivery(f.sequence, Message(f.flags, r.plaintext.value))]))
  {
    hide Open, Progress, LogOk, CanArrive, ReceiveSequence, Decrypt, FrameKey, FrameNonce, FrameAad, NoncePrefix,
      SentBy;
    var o := side.opener;
    OpenedFacts(o, f);
    AuthenticIsSealed(w, end, f);
    DecryptedPlaintext(o, f);
    OpenKeepsProgress(end, o, side.delivered, f, Message(f.flags, Open(o, f).plaintext.value));
  }

  lemma DecryptedPlaintext(o: Opener, f: Frame)
    requires Open(o, f).plaintext.Ok?
    ensures f.ciphertext.Sealed? && f.ciphertext.plaintext == Open(o, f).plaintext.value
  {
    hide FrameNonce, FrameAad, ReceiveSequence;
  }

  lemma OpenKeepsInv(w: World, end: End, f: Frame)
    requires Inv(w) && CanArrive(w, f) && end in w.receiving
    ensures Inv(DoOpen(w, end, f))
  {
    hide SendingOk, ReceivingOk, LogOk, Open, CanArrive;
    var w' := DoOpen(w, end, f);
    if Open(w.receiving[end].opener, f).plaintext.Ok? {
      OpenKeepsReceiving(w, end, w.receiving[end], f);
    }
    forall other | other in w'.receiving ensures ReceivingOk(w', other, w'.receiving[other]) {
      SameSendersSide(w, w', other, w'.receiving[other]);
    }
    SameSendersSameLog(w, w');
  }

  lemma SameSendersSameLog(w: World, w': World)
    requires w'.sending == w.sending && w'.context == w.context && w'.session == w.session && w'.log == w.log
      && LogOk(w)
    ensures LogOk(w')
  {
  }

  // ---------------------------------------------------------------------------
  // Issuing
  // ---------------------------------------------------------------------------

  lemma IssueSealerKeepsInv(w: World, end: End)
    requires Inv(w)
    ensures Inv(Apply(w, IssueSealer(end)))
  {
    hide SendingOk, ReceivingOk, Logged, NewSealer, CanArrive;
    var w' := Apply(w, IssueSealer(end));
    if end.channel != 0 && end !in w.sending {
      NewSealerOk(w.context, w.session, end);
    }
    forall other | other in w'.receiving ensures ReceivingOk(w', other, w'.receiving[other]) {
      SentUnchanged(w, w', other, w.receiving[other]);
    }
    forall e | e in w'.log ensures Logged(w', e) {
      LoggedKept(w, w', e);
    }
  }

  lemma NewSealerOk(context: Field, session: Field, end: End)
    requires end.channel != 0
    ensures SendingOk(context, session, end, Sending(NewSealer(context, session, end), []))
  {
    hide FrameKey, NoncePrefix;
  }

  lemma SentUnchanged(w: World, w': World, end: End, side: Receiving)
    requires SentBy(w', end) == SentBy(w, end) && w'.context == w.context && w'.session == w.session
      && ReceivingOk(w, end, side)
    ensures ReceivingOk(w', end, side)
  {
    hide OpenerFits, Progress, SentBy;
  }

  lemma NewOpenerOk(w: World, end: End)
    requires end.channel != 0
    ensures ReceivingOk(w, end, Receiving(NewOpener(w.context, w.session, end), []))
  {
    hide FrameKey, NoncePrefix, SentBy;
    assert Indices([]) == {};
  }

  lemma IssueOpenerKeepsInv(w: World, end: End)
    requires Inv(w)
    ensures Inv(Apply(w, IssueOpener(end)))
  {
    hide ReceivingOk, SendingOk, LogOk, NewOpener;
    var w' := Apply(w, IssueOpener(end));
    if end.channel != 0 {
      NewOpenerOk(w, end);
    }
    forall other | other in w'.receiving ensures ReceivingOk(w', other, w'.receiving[other]) {
      assert ReceivingOk(w, other, w'.receiving[other]);
      SameSendersSide(w, w', other, w'.receiving[other]);
    }
    SameSendersSameLog(w, w');
  }

  lemma SameSendersSide(w: World, w': World, end: End, side: Receiving)
    requires w'.sending == w.sending && w'.context == w.context && w'.session == w.session && ReceivingOk(w, end, side)
    ensures ReceivingOk(w', end, side)
  {
    hide OpenerFits, Progress;
  }

  // ---------------------------------------------------------------------------
  // Runs
  // ---------------------------------------------------------------------------

  lemma {:induction false} StepKeepsInv(w: World, step: Step)
    requires Inv(w)
    ensures Inv(Apply(w, step))
  {
    hide Inv, DoSeal, DoOpen;
    match step
    case IssueSealer(end) => IssueSealerKeepsInv(w, end);
    case IssueOpener(end) => IssueOpenerKeepsInv(w, end);
    case SealMessage(end, m) =>
      if end in w.sending {
        SealKeepsInv(w, end, m);
      }
    case Deliver(end, f) =>
      if end in w.receiving && CanArrive(w, f) {
        OpenKeepsInv(w, end, f);
      }
  }

  lemma {:induction false} RunsKeepInv(context: Field, session: Field, steps: seq<Step>)
    ensures Inv(Run(context, session, steps))
  {
    if steps != [] {
      hide Inv, Apply;
      RunsKeepInv(context, session, steps[..|steps| - 1]);
      StepKeepsInv(Run(context, session, steps[..|steps| - 1]), steps[|steps| - 1]);
    }
  }

  /**
   Across all sealers both peers ever issue from one key schedule, no two encryptions use
   the same key and nonce.
   */
  lemma {:induction false} NoNonceReuse(context: Field, session: Field, steps: seq<Step>, i: nat, j: nat)
    requires i < j < |Run(context, session, steps).log|
    ensures var log := Run(context, session, steps).log;
      && log[i].ciphertext.Sealed? && log[j].ciphertext.Sealed?
      && (log[i].ciphertext.key != log[j].ciphertext.key || log[i].ciphertext.nonce != log[j].ciphertext.nonce)
  {
    hide Run, FrameKey, FrameNonce, FrameAad, NoncePrefix, SendingOk, ReceivingOk;
    var w := Run(context, session, steps);
    RunsKeepInv(context, session, steps);
    var a, b := w.log[i], w.log[j];
    assert a in w.log && b in w.log;
    assert Logged(w, a) && Logged(w, b);
    if a.ciphertext.key == b.ciphertext.key && a.ciphertext.nonce == b.ciphertext.nonce {
      FrameKeyUnique(w.context, w.session, a.end, b.end);
      FrameNonceUnique(NoncePrefix(a.end), a.index, b.index);
    }
  }

  function Messages(delivered: seq<Delivery>): (ms: seq<Message>)
    ensures |ms| == |delivered| && forall i | 0 <= i < |delivered| :: ms[i] == delivered[i].message
  {
    if delivered == [] then [] else Messages(delivered[..|delivered| - 1]) + [delivered[|delivered| - 1].message]
  }

  /**
   On an ordered channel, whatever the network does, what has been opened is a prefix of
   what was sealed, in order, and a FIN comes last on both sides.
   */
  lemma {:induction false} OrderedChannelDeliversPrefix(context: Field, session: Field, steps: seq<Step>, end: End)
    requires end.mode.Ordered? && end in Run(context, session, steps).receiving
    ensures var w := Run(context, session, steps);
      var delivered, sent := Messages(w.receiving[end].delivered), SentBy(w, end);
      && delivered <= sent && FinIsLast(sent) && FinIsLast(delivered)
      && (EndsInFin(delivered) ==> delivered == sent)
  {
    hide Run, FrameKey, NoncePrefix, LogOk, HasFin;
    var w := Run(context, session, steps);
    RunsKeepInv(context, session, steps);
    var side, sent := w.receiving[end], SentBy(w, end);
    assert ReceivingOk(w, end, side);
    var delivered := Messages(side.delivered);
    forall i | 0 <= i < |delivered| ensures i < |sent| && delivered[i] == sent[i] {
      assert side.delivered[i] in side.delivered;
    }
    assert end in w.sending ==> SendingOk(w.context, w.session, end, w.sending[end]);
  }

  /**
   On a datagram channel every opened frame is one the sender sealed, under its own
   sequence number, and none is opened twice.
   */
  lemma {:induction false} DatagramsAreGenuineAndUnique(context: Field, session: Field, steps: seq<Step>, end: End)
    requires end.mode.Datagram? && end in Run(context, session, steps).receiving
    ensures var w := Run(context, session, steps); var delivered, sent := w.receiving[end].delivered, SentBy(w, end);
      && (forall d | d in delivered :: d.index < |sent| && d.message == sent[d.index])
      && (forall i, j | 0 <= i < j < |delivered| :: delivered[i].index != delivered[j].index)
  {
    hide Run, RW.Represents, LogOk, SendingOk, OpenerFits;
    RunsKeepInv(context, session, steps);
    var w := Run(context, session, steps);
    assert ReceivingOk(w, end, w.receiving[end]);
  }

  // ---------------------------------------------------------------------------
  // Genuine frames open
  // ---------------------------------------------------------------------------

  /** The frame an end sent at one position. */
  function SentFrame(w: World, end: End, n: nat): Frame
    requires n < |SentBy(w, end)| && n <= U64_MAX
  {
    var m := SentBy(w, end)[n];
    Frame(w.session, end.channel, n, m.flags, CiphertextOf(w.context, w.session, end, n, m))
  }

  /** A sent frame passes every check but the sequence and the lifecycle. */
  lemma SentFrameOpens(w: World, end: End, o: Opener, n: nat)
    requires n < |SentBy(w, end)| && n <= U64_MAX && OpenerFits(w.context, w.session, end, o)
    requires ValidFlags(end.mode, SentBy(w, end)[n].flags)
    ensures Open(o, SentFrame(w, end, n)).plaintext.Ok? <==>
      ReceiveSequence(o.state, n).Ok? && !(end.mode.Ordered? && o.finished)
    ensures Open(o, SentFrame(w, end, n)).plaintext.Ok? ==>
      Open(o, SentFrame(w, end, n)).plaintext.value == SentBy(w, end)[n].plaintext
  {
    hide FrameKey, FrameNonce, FrameAad, NoncePrefix, ReceiveSequence, ValidFlags, SentBy;
  }

  lemma SentFlagsAreValid(w: World, end: End, n: nat)
    requires Inv(w) && n < |SentBy(w, end)|
    ensures ValidFlags(end.mode, SentBy(w, end)[n].flags) && |SentBy(w, end)| <= U64_MAX + 1
  {
    hide ReceivingOk, LogOk, SealerFits;
    assert SendingOk(w.context, w.session, end, w.sending[end]);
    assert SentBy(w, end)[n] in w.sending[end].sent;
  }

  /** On an ordered channel the next sent frame always opens, to what was sealed. */
  lemma {:induction false} NextFrameOpens(context: Field, session: Field, steps: seq<Step>, end: End)
    requires end.mode.Ordered? && end in Run(context, session, steps).receiving
    requires var w := Run(context, session, steps); |w.receiving[end].delivered| < |SentBy(w, end)|
    ensures var w := Run(context, session, steps); var n := |w.receiving[end].delivered|;
      && n <= U64_MAX
      && Open(w.receiving[end].opener, SentFrame(w, end, n)).plaintext == Ok(SentBy(w, end)[n].plaintext)
  {
    hide Run, FrameKey, NoncePrefix, LogOk, Open, HasFin, SendingOk;
    var w := Run(context, session, steps);
    RunsKeepInv(context, session, steps);
    var side, sent := w.receiving[end], SentBy(w, end);
    var n := |side.delivered|;
    assert ReceivingOk(w, end, side);
    SentFlagsAreValid(w, end, n);
    NotFinishedEarly(w, end, side);
    SentFrameOpens(w, end, side.opener, n);
  }

  lemma NotFinishedEarly(w: World, end: End, side: Receiving)
    requires Inv(w) && end.mode.Ordered? && ReceivingOk(w, end, side) && |side.delivered| < |SentBy(w, end)|
    ensures !side.opener.finished
  {
    hide LogOk, HasFin, OpenerFits, SealerFits;
    assert SendingOk(w.context, w.session, end, w.sending[end]);
    if side.delivered != [] {
      var last := side.delivered[|side.delivered| - 1];
      assert last in side.delivered;
    }
  }

  /** On a datagram channel a sent frame opens exactly when its number is fresh. */
  lemma {:induction false} FreshDatagramOpens(context: Field, session: Field, steps: seq<Step>, end: End, n: nat)
    requires end.mode.Datagram? && end in Run(context, session, steps).receiving
    requires n < |SentBy(Run(context, session, steps), end)| && n <= U64_MAX
    ensures var w := Run(context, session, steps); var side := w.receiving[end];
      && (Open(side.opener, SentFrame(w, end, n)).plaintext.Ok? <==> RW.Fresh(Indices(side.delivered), n))
      && (Open(side.opener, SentFrame(w, end, n)).plaintext.Ok? ==>
            Open(side.opener, SentFrame(w, end, n)).plaintext.value == SentBy(w, end)[n].plaintext)
  {
    hide Run, FrameKey, NoncePrefix, LogOk, Open, SendingOk, RW.Represents, RW.Accept, RW.Fresh;
    var w := Run(context, session, steps);
    RunsKeepInv(context, session, steps);
    var side := w.receiving[end];
    assert ReceivingOk(w, end, side);
    SentFlagsAreValid(w, end, n);
    SentFrameOpens(w, end, side.opener, n);
    RW.AcceptsExactlyFresh(side.opener.state.window, Indices(side.delivered), n);
  }
}
