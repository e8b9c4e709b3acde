/**
 What a peer channel achieves: each side is issued once, every message sealed is encrypted
 and can be delivered, and each refusal has its reason. The safety of the same runs is in
 `PeerChannel`.
 */
module PeerProgress {
  import opened Wrappers
  import opened ByteCodec
  import opened PeerFrames
  import opened PeerChannel
  import RW = ReplayWindow

  lemma RunAgain(context: Field, session: Field, steps: seq<Step>, step: Step)
    ensures Run(context, session, steps + [step]) == Apply(Run(context, session, steps), step)
  {
    hide Apply;
    assert (steps + [step])[..|steps|] == steps;
  }

  // ---------------------------------------------------------------------------
  // Issuing
  // ---------------------------------------------------------------------------

  /** Every channel but zero gets its sealer and its opener, each once. */
  lemma {:induction false} IssuedOnce(context: Field, session: Field, steps: seq<Step>, end: End)
    ensures var w, w' := Run(context, session, steps), Run(context, session, steps + [IssueSealer(end)]);
      && (end.channel != 0 <==> end in w'.sending)
      && (end.channel != 0 && end !in w.sending ==>
            w' == w.(sending := w.sending[end := Sending(NewSealer(context, session, end), [])]))
      && (end in w.sending || end.channel == 0 ==> w' == w)
    ensures var w, w' := Run(context, session, steps), Run(context, session, steps + [IssueOpener(end)]);
      && (end.channel != 0 <==> end in w'.receiving)
      && (end.channel != 0 && end !in w.receiving ==>
            w' == w.(receiving := w.receiving[end := Receiving(NewOpener(context, session, end), [])]))
      && (end in w.receiving || end.channel == 0 ==> w' == w)
  {
    RunAgain(context, session, steps, IssueSealer(end));
    RunAgain(context, session, steps, IssueOpener(end));
    RunsKeepInv(context, session, steps);
    NamesAreFixed(context, session, steps);
    hide Run, LogOk, NewSealer, NewOpener, Progress, Genuine, SealerFits, OpenerFits, FinIsLast, EndsInFin;
    ChannelsAreIssued(Run(context, session, steps), end);
  }

  lemma ChannelsAreIssued(w: World, end: End)
    requires Inv(w)
    ensures end in w.sending || end in w.receiving ==> end.channel != 0
  {
    hide LogOk, Progress, Genuine, FinIsLast, EndsInFin, FrameKey, NoncePrefix, SentBy;
    if end in w.sending {
      assert SendingOk(w.context, w.session, end, w.sending[end]);
    }
    if end in w.receiving {
      assert ReceivingOk(w, end, w.receiving[end]);
    }
  }

  lemma {:induction false} NamesAreFixed(context: Field, session: Field, steps: seq<Step>)
    ensures Run(context, session, steps).context == context && Run(context, session, steps).session == session
  {
    if steps != [] {
      hide Seal, Open, CanArrive, NewSealer, NewOpener;
      NamesAreFixed(context, session, steps[..|steps| - 1]);
    }
  }

  // ---------------------------------------------------------------------------
  // Sealing
  // ---------------------------------------------------------------------------

  /** The encryption of position `n` of an end is in the log. */
  ghost predicate IsLogged(w: World, end: End, n: nat) {
    && n < |SentBy(w, end)| && n <= U64_MAX
    && Encryption(end, n, CiphertextOf(w.context, w.session, end, n, SentBy(w, end)[n])) in w.log
  }

  ghost predicate LogComplete(w: World) {
    forall end, n: nat | n < |SentBy(w, end)| :: IsLogged(w, end, n)
  }

  /** The world after sealing: one message and one encryption more, or nothing. */
  lemma SealOutcome(w: World, end: End, m: Message)
    requires end in w.sending && SendingOk(w.context, w.session, end, w.sending[end])
    ensures var sent, w' := w.sending[end].sent, Apply(w, SealMessage(end, m));
      var fits := |m.plaintext| <= 65_520 && ValidFlags(end.mode, m.flags) && |sent| <= U64_MAX
        && !(end.mode.Ordered? && EndsInFin(sent));
      && (fits ==>
            && SentBy(w', end) == sent + [m] && w'.receiving == w.receiving
            && w'.log == w.log + [Encryption(end, |sent|, CiphertextOf(w.context, w.session, end, |sent|, m))])
      && (!fits ==> w' == w)
      && w'.context == w.context && w'.session == w.session
      && forall other | other != end :: SentBy(w', other) == SentBy(w, other)
  {
    EncryptionAlwaysAdvances(w.sending[end].sealer, m.plaintext, m.flags);
    SealUses(w.context, w.session, end, w.sending[end], m);
    hide Seal, FrameKey, NoncePrefix, CiphertextOf, EndsInFin, FinIsLast, ValidFlags;
    var side := w.sending[end];
    if Seal(side.sealer, m.plaintext, m.flags).frame.Err? {
      assert w.sending[end := side] == w.sending;
    }
  }

  lemma StepKeepsLogComplete(w: World, step: Step)
    requires Inv(w) && LogComplete(w)
    ensures LogComplete(Apply(w, step))
  {
    var w' := Apply(w, step);
    if step.SealMessage? && step.end in w.sending {
      hide Apply, CiphertextOf, EndsInFin, ValidFlags, SendingOk, ReceivingOk, LogOk;
      SealOutcome(w, step.end, step.message);
      forall end, n: nat | n < |SentBy(w', end)| ensures IsLogged(w', end, n) {
        if n < |SentBy(w, end)| {
          assert IsLogged(w, end, n);
        }
      }
    } else {
      hide Seal, Open, CanArrive, NewSealer, NewOpener, CiphertextOf, SendingOk, ReceivingOk, LogOk;
      forall end, n: nat | n < |SentBy(w', end)| ensures IsLogged(w', end, n) {
        assert SentBy(w, end) == SentBy(w', end);
        assert IsLogged(w, end, n);
      }
    }
  }

  /** Every message ever sealed was encrypted, at its own position: the log misses nothing. */
  lemma {:induction false} EverySealIsLogged(context: Field, session: Field, steps: seq<Step>)
    ensures LogComplete(Run(context, session, steps))
  {
    if steps != [] {
      hide Apply, Inv, LogComplete;
      var before := steps[..|steps| - 1];
      EverySealIsLogged(context, session, before);
      RunsKeepInv(context, session, before);
      StepKeepsLogComplete(Run(context, session, before), steps[|steps| - 1]);
    } else {
      hide CiphertextOf;
    }
  }

  /**
   After every run sealing appends the message exactly when it fits and is well flagged, no
   FIN was sealed before it on an ordered channel, and a sequence number is left; otherwise
   nothing changes.
   */
  lemma {:induction false} SealedIff(context: Field, session: Field, steps: seq<Step>, end: End, m: Message)
    requires end in Run(context, session, steps).sending
    ensures var w, w' := Run(context, session, steps), Run(context, session, steps + [SealMessage(end, m)]);
      var sent := SentBy(w, end);
      var fits := |m.plaintext| <= 65_520 && ValidFlags(end.mode, m.flags) && |sent| <= U64_MAX
        && !(end.mode.Ordered? && EndsInFin(sent));
      && (fits ==> SentBy(w', end) == sent + [m] && |w'.log| == |w.log| + 1)
      && (!fits ==> w' == w)
  {
    RunAgain(context, session, steps, SealMessage(end, m));
    RunsKeepInv(context, session, steps);
    hide Run, Apply, ReceivingOk, LogOk, SendingOk, CiphertextOf, EndsInFin, ValidFlags;
    SealOutcome(Run(context, session, steps), end, m);
  }

  // ---------------------------------------------------------------------------
  // Delivering
  // ---------------------------------------------------------------------------

  lemma SentFrameArrives(w: World, end: End, n: nat)
    requires LogComplete(w) && n < |SentBy(w, end)| && n <= U64_MAX
    ensures CanArrive(w, SentFrame(w, end, n))
  {
    hide CiphertextOf;
    assert IsLogged(w, end, n);
  }

  /** What delivering a frame that opens, or does not, does to the world. */
  lemma DeliverOutcome(w: World, end: End, f: Frame)
    requires end in w.receiving && CanArrive(w, f)
    ensures var w', r := Apply(w, Deliver(end, f)), Open(w.receiving[end].opener, f).plaintext;
      && w'.sending == w.sending && w'.log == w.log && end in w'.receiving
      && w'.context == w.context && w'.session == w.session
      && (r.Err? ==> w' == w)
      && (r.Ok? ==>
            var d := Delivery(f.sequence, Message(f.flags, r.value));
            w'.receiving[end].delivered == w.receiving[end].delivered + [d])
  {
    hide CanArrive, ReceiveSequence, Decrypt, FrameNonce, FrameAad;
    var side := w.receiving[end];
    if Open(side.opener, f).plaintext.Err? {
      assert w.receiving[end := side] == w.receiving;
    }
  }

  /** The next sent frame of an ordered channel, delivered, is appended to what was opened. */
  lemma {:induction false} NextFrameIsDelivered(context: Field, session: Field, steps: seq<Step>, end: End)
    requires end.mode.Ordered? && end in Run(context, session, steps).receiving
    requires var w := Run(context, session, steps); |w.receiving[end].delivered| < |SentBy(w, end)|
    ensures var w := Run(context, session, steps); var n := |w.receiving[end].delivered|;
      && n <= U64_MAX
      && var w' := Run(context, session, steps + [Deliver(end, SentFrame(w, end, n))]);
      && w'.sending == w.sending && end in w'.receiving && w'.context == w.context && w'.session == w.session
      && w'.receiving[end].delivered == w.receiving[end].delivered + [Delivery(n, SentBy(w, end)[n])]
  {
    NextFrameOpens(context, session, steps, end);
    EverySealIsLogged(context, session, steps);
    hide Run, Apply, Open, CanArrive, CiphertextOf, LogComplete;
    var w := Run(context, session, steps);
    var n := |w.receiving[end].delivered|;
    SentFrameArrives(w, end, n);
    RunAgain(context, session, steps, Deliver(end, SentFrame(w, end, n)));
    DeliverOutcome(w, end, SentFrame(w, end, n));
  }

  /** The frames from position `n` on, delivered in order. */
  function Remaining(w: World, end: End, n: nat): seq<Step>
    requires |SentBy(w, end)| <= U64_MAX + 1
    decreases |SentBy(w, end)| - n
  {
    if n >= |SentBy(w, end)| then [] else [Deliver(end, SentFrame(w, end, n))] + Remaining(w, end, n + 1)
  }

  lemma {:induction false} SameRemaining(w: World, w': World, end: End, n: nat)
    requires |SentBy(w, end)| <= U64_MAX + 1
    requires w'.sending == w.sending && w'.context == w.context && w'.session == w.session
    ensures Remaining(w', end, n) == Remaining(w, end, n)
    decreases |SentBy(w, end)| - n
  {
    hide CiphertextOf;
    if n < |SentBy(w, end)| {
      SameRemaining(w, w', end, n + 1);
    }
  }

  lemma SentFits(context: Field, session: Field, steps: seq<Step>, end: End)
    ensures |SentBy(Run(context, session, steps), end)| <= U64_MAX + 1
  {
    RunsKeepInv(context, session, steps);
    hide Run, ReceivingOk, LogOk, SendingOk;
    var w := Run(context, session, steps);
    if SentBy(w, end) != [] {
      SentFlagsAreValid(w, end, 0);
    }
  }

  /**
   No run is a dead end: whatever the network did before, delivering the remaining frames
   in order opens exactly the messages that were sealed.
   */
  lemma {:induction false} EverythingSentCanBeDelivered(context: Field, session: Field, steps: seq<Step>, end: End)
    requires end.mode.Ordered? && end in Run(context, session, steps).receiving
    ensures var w := Run(context, session, steps);
      && |SentBy(w, end)| <= U64_MAX + 1
      && var w' := Run(context, session, steps + Remaining(w, end, |w.receiving[end].delivered|));
      && w'.sending == w.sending && end in w'.receiving
      && Messages(w'.receiving[end].delivered) == SentBy(w, end)
    decreases var w := Run(context, session, steps); |SentBy(w, end)| - |w.receiving[end].delivered|
  {
    SentFits(context, session, steps, end);
    hide Run, SentFrame, SentBy, Messages;
    var w := Run(context, session, steps);
    var n := |w.receiving[end].delivered|;
    if n < |SentBy(w, end)| {
      DeliverNext(context, session, steps, end);
      var step := Deliver(end, SentFrame(w, end, n));
      var w1 := Run(context, session, steps + [step]);
      EverythingSentCanBeDelivered(context, session, steps + [step], end);
      SameRemaining(w, w1, end, n + 1);
      assert steps + [step] + Remaining(w, end, n + 1) == steps + Remaining(w, end, n);
    } else {
      AllDelivered(context, session, steps, end);
      assert steps + Remaining(w, end, n) == steps;
    }
  }

  lemma DeliverNext(context: Field, session: Field, steps: seq<Step>, end: End)
    requires end.mode.Ordered? && end in Run(context, session, steps).receiving
    requires var w := Run(context, session, steps); |w.receiving[end].delivered| < |SentBy(w, end)|
    ensures var w := Run(context, session, steps); var n := |w.receiving[end].delivered|;
      && n <= U64_MAX
      && var w' := Run(context, session, steps + [Deliver(end, SentFrame(w, end, n))]);
      && w'.sending == w.sending && end in w'.receiving && w'.context == w.context && w'.session == w.session
      && |w'.receiving[end].delivered| == n + 1 && SentBy(w', end) == SentBy(w, end)
  {
    NextFrameIsDelivered(context, session, steps, end);
    hide Run, SentFrame;
  }

  lemma AllDelivered(context: Field, session: Field, steps: seq<Step>, end: End)
    requires end.mode.Ordered? && end in Run(context, session, steps).receiving
    requires var w := Run(context, session, steps); |w.receiving[end].delivered| >= |SentBy(w, end)|
    ensures var w := Run(context, session, steps); Messages(w.receiving[end].delivered) == SentBy(w, end)
  {
    OrderedChannelDeliversPrefix(context, session, steps, end);
    hide Run, FinIsLast, EndsInFin, SentBy;
  }

  /** A sent datagram, delivered, is appended when it is fresh, and changes nothing otherwise. */
  lemma {:induction false} FreshDatagramIsDelivered(context: Field, session: Field, steps: seq<Step>, end: End, n: nat)
    requires end.mode.Datagram? && end in Run(context, session, steps).receiving
    requires n < |SentBy(Run(context, session, steps), end)| && n <= U64_MAX
    ensures var w := Run(context, session, steps);
      var delivered := w.receiving[end].delivered;
      var fresh_ := forall d | d in delivered :: d.index != n && d.index < n + 64;
      var w' := Run(context, session, steps + [Deliver(end, SentFrame(w, end, n))]);
      && end in w'.receiving
      && (fresh_ ==> w'.receiving[end].delivered == delivered + [Delivery(n, SentBy(w, end)[n])])
      && (!fresh_ ==> w' == w)
  {
    FreshDatagramOpens(context, session, steps, end, n);
    DatagramsAreGenuineAndUnique(context, session, steps, end);
    SentFits(context, session, steps, end);
    EverySealIsLogged(context, session, steps);
    hide Run, Apply, Open, CanArrive, CiphertextOf, LogComplete;
    var w := Run(context, session, steps);
    SentFrameArrives(w, end, n);
    RunAgain(context, session, steps, Deliver(end, SentFrame(w, end, n)));
    DeliverOutcome(w, end, SentFrame(w, end, n));
    FreshMeans(w.receiving[end].delivered, n);
  }

  lemma FreshMeans(delivered: seq<Delivery>, n: U64)
    requires forall d | d in delivered :: d.index <= U64_MAX
    ensures RW.Fresh(Indices(delivered), n) <==> forall d | d in delivered :: d.index != n && d.index < n + 64
  {
    if RW.Fresh(Indices(delivered), n) {
      forall d | d in delivered ensures d.index != n && d.index < n + 64 {
        assert d.index in Indices(delivered);
      }
    }
  }

  // ---------------------------------------------------------------------------
  // Refusals
  // ---------------------------------------------------------------------------

  /**
   The sequence check of an ordered opener, by how many messages it has opened: only the
   next number passes, a lower one is a replay and a higher one is unexpected; after the
   very last number every lower one counts as exhaustion.
   */
  lemma {:induction false} SequenceVerdict(context: Field, session: Field, steps: seq<Step>, end: End, s: U64)
    requires end.mode.Ordered? && end in Run(context, session, steps).receiving
    ensures var side := Run(context, session, steps).receiving[end];
      var n, r := |side.delivered|, ReceiveSequence(side.opener.state, s);
      && (r.Ok? <==> s == n)
      && (s > n ==> r == Err(UnexpectedSequence))
      && (s < n <= U64_MAX || s == U64_MAX < n ==> r == Err(Replay))
      && (s < U64_MAX < n ==> r == Err(SequenceExhausted))
  {
    RunsKeepInv(context, session, steps);
    hide Run, LogOk, Genuine, SendingOk, OpenerFits, HasFin;
    var w := Run(context, session, steps);
    assert ReceivingOk(w, end, w.receiving[end]);
  }
}
