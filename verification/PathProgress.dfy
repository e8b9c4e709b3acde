/**
 What the path manager does, not only what it avoids: which moves the lifecycle has, and what
 each lock-held section leaves behind in every reachable state when nothing stands in its way.
 */
module PathProgress {
  import opened Wrappers
  import opened PathManager
  import opened PathRecord

  /** The lifecycle has exactly these moves. */
  lemma LifecycleMoves(from: PathState, to: PathState)
    ensures Legal(from, to) <==> (from, to) in {
      (Discovering, Checking), (Checking, Direct), (Checking, Relay), (Direct, Rechecking), (Relay, Rechecking),
      (Rechecking, Direct), (Rechecking, Relay), (Discovering, Closed), (Checking, Closed), (Direct, Closed),
      (Relay, Closed), (Rechecking, Closed)}
  {
  }

  /** The state a path of each kind is used in. */
  predicate Uses(state: PathState, kind: PathKind) {
    match kind
    case QuicV6 => state == Direct
    case QuicV4 => state == Direct
    case NativeTcp => state == Direct
    case RelayPath => state == Relay
  }

  /** A new manager knows nothing and its first recheck will have id one. */
  lemma StartsDiscovering()
    ensures Run(Start(), []) == World(Record(Discovering, None, None, 1, 0, []), map[], false, false, [], {})
  {
  }

  /** A first connect begins checking; any other state refuses it. */
  lemma {:induction false} ConnectBeginsChecking(steps: seq<Step>, op: nat)
    requires op !in Run(Start(), steps).operations
    ensures var w, w' := Run(Start(), steps), Apply(Run(Start(), steps), Connect(op));
      if w.record.state == Discovering then
        && w'.record.state == Checking && w'.operations == w.operations[op := Racing(Checking)]
        && w'.record.activeOperations == w.record.activeOperations + 1
        && w'.history == w.history + [StateChanged(Discovering, Checking)]
      else w' == w
  {
    hide Run, PushAll;
    LifecycleMoves(Run(Start(), steps).record.state, Checking);
  }

  /** A race that is won installs its winner: direct kinds lead to Direct, the relay to Relay. */
  lemma {:induction false} WinnerIsInstalled(steps: seq<Step>, op: nat, winner: Selected)
    requires var w := Run(Start(), steps);
      && op in w.operations && w.operations[op].Racing? && w.record.state != Closed && !w.cancelled
      && winner.handle !in w.handles
    ensures var w, w' := Run(Start(), steps), Apply(Run(Start(), steps), WinRace(op, winner, false));
      && w'.record.selected == Some(winner) && Uses(w'.record.state, winner.kind) && w'.record.recheck.None?
      && w'.operations == w.operations[op := Installed(winner, |w'.history|)]
      && w'.handles == w.handles + {winner.handle}
      && w'.record.activeOperations == w.record.activeOperations
      && w'.history == w.history + [StateChanged(w.record.state, w'.record.state), PathSelected(winner.kind)]
                       + if winner.kind.RelayPath? then [RelayFallback] else []
  {
    hide Run, PushAll, Recent, Legal;
    RunsKeepInv(steps);
    var w := Run(Start(), steps);
    LifecycleMoves(w.record.state, Direct);
    LifecycleMoves(w.record.state, Relay);
    var next := StateFor(winner.kind);
    var two := [StateChanged(w.record.state, next), PathSelected(winner.kind)];
    assert w.history + (two + [RelayFallback]) == w.history + two + [RelayFallback];
    assert w.history + (two + []) == w.history + two + [];
  }

  /** A race that is won too late leaves the record alone and its operation failing. */
  lemma {:induction false} LateWinnerIsRefused(steps: seq<Step>, op: nat, winner: Selected, callerCancelled: bool)
    requires var w := Run(Start(), steps);
      && op in w.operations && w.operations[op].Racing? && winner.handle !in w.handles
      && (callerCancelled || w.cancelled || w.record.state == Closed)
    ensures var w := Run(Start(), steps);
      Apply(w, WinRace(op, winner, callerCancelled)) == w.(operations := w.operations[op := Failing])
  {
    hide Run, PushAll;
  }

  /** A failure reported of the path in use takes it and its recheck away and starts a foreground recheck. */
  lemma {:induction false} ReportedFailureRechecks(steps: seq<Step>, op: nat)
    requires op !in Run(Start(), steps).operations
    ensures var w, w' := Run(Start(), steps), Apply(Run(Start(), steps), ReportFailed(op));
      if w.record.state == Direct || w.record.state == Relay then
        && w'.record.state == Rechecking && w'.record.selected.None? && w'.record.recheck.None?
        && w'.operations == w.operations[op := Racing(Rechecking)]
        && w'.record.activeOperations == w.record.activeOperations + 1
        && w'.history == w.history + [StateChanged(w.record.state, Rechecking)]
      else w' == w
  {
    hide Run, PushAll;
    LifecycleMoves(Run(Start(), steps).record.state, Rechecking);
  }

  /** The owned recheck of a relay path starts in the background, the relay staying in use. */
  lemma {:induction false} BackgroundRecheckBegins(steps: seq<Step>, id: U64)
    ensures var w, w' := Run(Start(), steps), Apply(Run(Start(), steps), BackgroundBegin(id));
      if w.record.recheck == Some(id) && w.record.state == Relay then
        && w'.record.state == Rechecking && w'.record.selected == w.record.selected && w'.record.recheck == Some(id)
        && w'.operations == w.operations
        && w'.history == w.history + [StateChanged(Relay, Rechecking), RecheckStarted]
      else w' == w
  {
    hide Run, PushAll;
    var w := Run(Start(), steps);
    assert w.history + [] == w.history;
  }

  /** A background recheck that fails falls back to the relay it kept. */
  lemma {:induction false} BackgroundRecheckFallsBack(steps: seq<Step>, id: U64)
    ensures var w, w' := Run(Start(), steps), Apply(Run(Start(), steps), BackgroundFail(id));
      if w.record.recheck == Some(id) && w.record.state == Rechecking then
        && w'.record.state == Relay && w'.record.selected == w.record.selected && w'.record.recheck == Some(id)
        && w'.operations == w.operations
        && w'.history == w.history + [StateChanged(Rechecking, Relay), RecheckScheduled]
      else w' == w
  {
    hide Run, PushAll;
    var w := Run(Start(), steps);
    assert w.history + [] == w.history;
  }

  /** A background recheck that wins replaces the relay and says so. */
  lemma {:induction false} BackgroundWinnerIsInstalled(steps: seq<Step>, id: U64, winner: Selected)
    requires var w := Run(Start(), steps);
      && w.record.recheck == Some(id) && w.record.state == Rechecking && !w.cancelled && winner.handle !in w.handles
    ensures var w, w' := Run(Start(), steps), Apply(Run(Start(), steps), BackgroundWin(id, winner, false));
      && w'.record.selected == Some(winner) && Uses(w'.record.state, winner.kind) && w'.record.recheck == Some(id)
      && w'.operations == w.operations && w'.handles == w.handles + {winner.handle}
      && w'.history == w.history + [StateChanged(Rechecking, w'.record.state), PathSelected(winner.kind)]
                       + if winner.kind.RelayPath? then [RelayFallback] else [Promoted(winner.kind)]
  {
    hide Run, PushAll, Recent, Legal;
    var w := Run(Start(), steps);
    LifecycleMoves(w.record.state, Direct);
    LifecycleMoves(w.record.state, Relay);
    var two := [StateChanged(Rechecking, StateFor(winner.kind)), PathSelected(winner.kind)];
    assert w.history + (two + [RelayFallback]) == w.history + two + [RelayFallback];
    assert w.history + (two + [Promoted(winner.kind)]) == w.history + two + [Promoted(winner.kind)];
  }

  /** A stranger's recheck id, a cancelled lifetime or a closed record installs nothing. */
  lemma {:induction false} BackgroundStrangerIsRefused(steps: seq<Step>, id: U64, winner: Selected,
      callerCancelled: bool)
    requires var w := Run(Start(), steps);
      w.record.recheck != Some(id) || w.record.state != Rechecking || w.cancelled || callerCancelled
    ensures Apply(Run(Start(), steps), BackgroundWin(id, winner, callerCancelled)) == Run(Start(), steps)
  {
    hide Run, PushAll;
  }

  /** Closing takes path and recheck out of any state and records it once. */
  lemma {:induction false} CloseCloses(steps: seq<Step>)
    ensures var w, w' := Run(Start(), steps), Apply(Run(Start(), steps), CloseRecord);
      && w'.record.state == Closed && w'.record.selected.None? && w'.record.recheck.None?
      && w'.operations == w.operations
      && w'.history == w.history +
           if w.record.state == Closed then [] else [StateChanged(w.record.state, Closed), ClosedEvent]
  {
    hide Run, PushAll;
  }

  /** A relay without a recheck task gets one under a new id, never zero; a finished one is forgotten first. */
  lemma {:induction false} RelayGetsItsRecheck(steps: seq<Step>, op: nat, finished: bool)
    requires var w := Run(Start(), steps);
      op in w.operations && w.operations[op].Installed? && w.operations[op].path.kind.RelayPath?
    ensures var w, w' := Run(Start(), steps), Apply(Run(Start(), steps), StartRecheckPass(op, finished));
      && w'.operations == w.operations && w'.history == w.history && w'.record.state == w.record.state
      && w'.record.selected == w.record.selected
      && (w.record.state != Relay || (w.record.recheck.Some? && !finished) ==> w' == w)
      && (w.record.state == Relay && w.record.recheck.Some? && finished ==>
            w'.record.recheck.None? && w'.record.nextRecheckId == w.record.nextRecheckId)
      && (w.record.state == Relay && w.record.recheck.None? ==>
            && w'.record.recheck == Some(w.record.nextRecheckId)
            && w'.record.nextRecheckId == if w.record.nextRecheckId == U64_MAX then 1 else w.record.nextRecheckId + 1)
  {
    hide Run;
  }

  predicate IdsArePositive(r: Record) {
    r.nextRecheckId >= 1 && (r.recheck.Some? ==> r.recheck.value >= 1)
  }

  lemma StepKeepsIdsPositive(w: World, step: Step)
    requires IdsArePositive(w.record)
    ensures IdsArePositive(Apply(w, step).record)
  {
    hide PushAll, Legal, StateFor;
  }

  /** Zero never names a recheck, also after the counter has wrapped. */
  lemma {:induction false} RecheckIdsAreNeverZero(steps: seq<Step>)
    ensures var r := Run(Start(), steps).record; r.nextRecheckId >= 1 && (r.recheck.Some? ==> r.recheck.value >= 1)
  {
    if steps != [] {
      hide Apply;
      RecheckIdsAreNeverZero(steps[..|steps| - 1]);
      StepKeepsIdsPositive(Run(Start(), steps[..|steps| - 1]), steps[|steps| - 1]);
    }
  }

  /** Attempts are recorded in order until the manager is closed. */
  lemma {:induction false} AttemptsAreRecorded(steps: seq<Step>, kind: PathKind)
    ensures var w := Run(Start(), steps); var log := if w.record.state == Closed then [] else [AttemptStarted(kind)];
      Apply(w, AttemptEvent(AttemptStarted(kind))).history == w.history + log
    ensures var w := Run(Start(), steps); var log := if w.record.state == Closed then [] else [AttemptFailed(kind)];
      Apply(w, AttemptEvent(AttemptFailed(kind))).history == w.history + log
  {
    hide Run, PushAll;
  }

  /** A guard that ends takes exactly its operation with it. */
  lemma {:induction false} GuardsEnd(steps: seq<Step>, op: nat)
    requires op in Run(Start(), steps).operations
    ensures var w, w' := Run(Start(), steps), Apply(Run(Start(), steps), DropGuard(op));
      && w'.operations == w.operations - {op} && w'.record.activeOperations == w.record.activeOperations - 1
      && w'.record == w.record.(activeOperations := w'.record.activeOperations) && w'.history == w.history
    ensures var w := Run(Start(), steps);
      Apply(w, Finish(op)) == if w.operations[op].Installed? then Apply(w, DropGuard(op)) else w
    ensures var w := Run(Start(), steps);
      Apply(w, LoseRace(op)) == if w.operations[op].Racing? then w.(operations := w.operations[op := Failing]) else w
    ensures var w := Run(Start(), steps);
      !w.operations[op].Installed? || !w.operations[op].path.kind.RelayPath? ==>
        forall finished :: Apply(w, StartRecheckPass(op, finished)) == w
  {
    hide Run, Recent;
    RunsKeepInv(steps);
    assert op in Run(Start(), steps).operations.Keys;
  }

  /** Cancelling the lifetime only marks it; close returns exactly when nothing is left to wait for. */
  lemma {:induction false} CloseReturnsWhenDone(steps: seq<Step>)
    ensures var w := Run(Start(), steps); Apply(w, CancelLifetime) == w.(cancelled := true)
    ensures var w := Run(Start(), steps);
      Apply(w, CloseReturns) ==
        if w.record.state == Closed && w.cancelled && w.operations == map[] then w.(closeReturned := true) else w
  {
    hide Run, Recent;
    RunsKeepInv(steps);
    assert |Run(Start(), steps).operations| == 0 <==> Run(Start(), steps).operations == map[];
  }
}
