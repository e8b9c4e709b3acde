/**
 Every interleaving of foreground operations, background rechecks, cancellation and close
 on one path manager.
 */
module PathManager {
  import opened Wrappers
  import opened PathRecord

  /**
   A live operation guard: racing towards an expected state, failed, or installed; `since`
   is how many events had been recorded when the install was complete.
   */
  datatype Operation = Racing(expected: PathState) | Failing | Installed(path: Selected, since: nat)

  /** `history` is every event ever recorded, `handles` every path ever installed. */
  datatype World = World(
    record: Record, operations: map<nat, Operation>, cancelled: bool, closeReturned: bool,
    history: seq<PathEvent>, handles: set<nat>)

  datatype Step =
    | Connect(op: nat)
    | ReportFailed(op: nat)
    | AttemptEvent(event: PathEvent)
    | LoseRace(op: nat)
    | WinRace(op: nat, winner: Selected, callerCancelled: bool)
    | StartRecheckPass(op: nat, finished: bool)
    | Finish(op: nat)
    | DropGuard(op: nat)
    | BackgroundBegin(id: U64)
    | BackgroundFail(id: U64)
    | BackgroundWin(id: U64, winner: Selected, callerCancelled: bool)
    | CloseRecord
    | CancelLifetime
    | CloseReturns

  // ---------------------------------------------------------------------------
  // Steps
  // ---------------------------------------------------------------------------

  function Start(): World {
    World(Record(Discovering, None, None, 1, 0, []), map[], false, false, [], {})
  }

  function Did(w: World, s: Section): World {
    w.(record := s.record, history := w.history + s.log)
  }

  function Enters(w: World, op: nat, s: Option<Section>, expected: PathState): World {
    if op in w.operations || s.None? then w
    else Did(w, s.value).(operations := w.operations[op := Racing(expected)])
  }

  /** Releasing a guard ends the operation. */
  function Releases(w: World, op: nat): World {
    if op !in w.operations then w
    else w.(record := ReleaseGuard(w.record), operations := w.operations - {op})
  }

  function Wins(w: World, op: nat, winner: Selected, callerCancelled: bool): World
    requires op in w.operations && w.operations[op].Racing?
  {
    var installed := Install(w.record, w.operations[op].expected, None, winner);
    if callerCancelled || w.cancelled || installed.None? then w.(operations := w.operations[op := Failing])
    else
      var w' := Did(w, installed.value);
      w'.(operations := w.operations[op := Installed(winner, |w'.history|)], handles := w.handles + {winner.handle})
  }

  function BackgroundWins(w: World, id: U64, winner: Selected, callerCancelled: bool): World {
    var installed := Install(w.record, Rechecking, Some(id), winner);
    if callerCancelled || w.cancelled || installed.None? then w
    else Did(w, installed.value).(handles := w.handles + {winner.handle})
  }

  function Apply(w: World, step: Step): World {
    match step
    case Connect(op) => Enters(w, op, Begin(w.record, Checking), Checking)
    case ReportFailed(op) => Enters(w, op, BeginFailure(w.record), Rechecking)
    case AttemptEvent(event) =>
      if event.AttemptStarted? || event.AttemptFailed? then Did(w, RecordEvent(w.record, event)) else w
    case LoseRace(op) =>
      if op in w.operations && w.operations[op].Racing? then w.(operations := w.operations[op := Failing]) else w
    case WinRace(op, winner, callerCancelled) =>
      if op in w.operations && w.operations[op].Racing? && winner.handle !in w.handles
      then Wins(w, op, winner, callerCancelled) else w
    case StartRecheckPass(op, finished) =>
      if op in w.operations && w.operations[op].Installed? && !IsDirect(w.operations[op].path.kind)
      then w.(record := StartRecheck(w.record, finished)) else w
    case Finish(op) => if op in w.operations && w.operations[op].Installed? then Releases(w, op) else w
    case DropGuard(op) => Releases(w, op)
    case BackgroundBegin(id) => Did(w, BeginBackgroundRecheck(w.record, id))
    case BackgroundFail(id) => Did(w, FinishFailedRecheck(w.record, id))
    case BackgroundWin(id, winner, callerCancelled) =>
      if winner.handle !in w.handles then BackgroundWins(w, id, winner, callerCancelled) else w
    case CloseRecord => Did(w, CloseAtomic(w.record))
    case CancelLifetime => w.(cancelled := true)
    case CloseReturns =>
      if w.record.state == Closed && w.cancelled && w.record.activeOperations == 0 then w.(closeReturned := true) else w
  }

  function Run(w: World, steps: seq<Step>): World {
    if steps == [] then w else Apply(Run(w, steps[..|steps| - 1]), steps[|steps| - 1])
  }

  // ---------------------------------------------------------------------------
  // The invariant
  // ---------------------------------------------------------------------------

  /** What each state says about the selected path and the owned recheck. */
  predicate Shape(state: PathState, selected: Option<Selected>, recheck: Option<U64>) {
    match state
    case Discovering => selected.None? && recheck.None?
    case Checking => selected.None? && recheck.None?
    case Direct => selected.Some? && IsDirect(selected.value.kind)
    case Relay => selected.Some? && !IsDirect(selected.value.kind)
    case Rechecking =>
      || (selected.None? && recheck.None?)
      || (selected.Some? && !IsDirect(selected.value.kind) && recheck.Some?)
    case Closed => selected.None? && recheck.None?
  }

  /** Unless the manager is closed, a racing operation is the only one and owns the state. */
  ghost predicate RacesAlone(r: Record, operations: map<nat, Operation>) {
    r.state != Closed ==>
      && (forall op | op in operations && operations[op].Racing? ::
            r.state == operations[op].expected && r.state in {Checking, Rechecking} && r.selected.None?
              && r.recheck.None?)
      && (forall a, b | a in operations && b in operations && operations[a].Racing? && operations[b].Racing? :: a == b)
  }

  /** No path was selected from the given event on. */
  ghost predicate NoneSelected(history: seq<PathEvent>, since: nat) {
    forall i | since <= i < |history| :: !history[i].PathSelected?
  }

  /** The selected path is an operation's own only while no later event selects another. */
  ghost predicate Installs(operations: map<nat, Operation>, selected: Option<Selected>, history: seq<PathEvent>,
      handles: set<nat>) {
    forall op | op in operations && operations[op].Installed? ::
      var o := operations[op];
      && o.path.handle in handles && o.since <= |history|
      && (selected == Some(o.path) ==> NoneSelected(history, o.since))
      && (NoneSelected(history, o.since) ==> selected in {Some(o.path), None})
  }

  ghost predicate Inv(w: World) {
    && Installs(w.operations, w.record.selected, w.history, w.handles)
    && Shape(w.record.state, w.record.selected, w.record.recheck)
    && RacesAlone(w.record, w.operations)
    && w.record.activeOperations == |w.operations|
    && w.record.events == Recent(w.history)
    && (w.closeReturned ==> w.record.state == Closed && w.operations == map[])
  }

  // ---------------------------------------------------------------------------
  // Preservation
  // ---------------------------------------------------------------------------

  /** A section that records its log keeps the event record exact. */
  lemma LoggedIsRecent(r: Record, log: seq<PathEvent>, history: seq<PathEvent>)
    requires r.events == Recent(history)
    ensures Logged(r, log).record.events == Recent(history + log)
    ensures Logged(r, log).log == log && Logged(r, log).record == r.(events := Logged(r, log).record.events)
    ensures history + [] == history
  {
    hide PushAll, Recent;
    PushAllIsRecent(history, log);
  }

  predicate SelectsNothing(log: seq<PathEvent>) {
    forall e | e in log :: !e.PathSelected?
  }

  /** A section that selects nothing keeps the path or clears it. */
  lemma QuietSectionKeepsInstalls(w: World, selected: Option<Selected>, log: seq<PathEvent>)
    requires Installs(w.operations, w.record.selected, w.history, w.handles) && SelectsNothing(log)
    requires selected in {w.record.selected, None}
    ensures Installs(w.operations, selected, w.history + log, w.handles)
  {
    forall op | op in w.operations && w.operations[op].Installed?
      ensures NoneSelected(w.history + log, w.operations[op].since) <==> NoneSelected(w.history, w.operations[op].since)
    {
      NoneSelectedExtends(w.history, log, w.operations[op].since);
    }
  }

  lemma NoneSelectedExtends(history: seq<PathEvent>, log: seq<PathEvent>, since: nat)
    requires since <= |history|
    ensures NoneSelected(history + log, since) <==> NoneSelected(history, since) && SelectsNothing(log)
  {
    var all := history + log;
    if NoneSelected(all, since) {
      forall i | since <= i < |history| ensures !history[i].PathSelected? { assert all[i] == history[i]; }
      forall e | e in log ensures !e.PathSelected? {
        var i :| 0 <= i < |log| && log[i] == e;
        assert all[|history| + i] == e;
      }
    }
    if NoneSelected(history, since) && SelectsNothing(log) {
      forall i | since <= i < |all| ensures !all[i].PathSelected? {
        if i < |history| { assert all[i] == history[i]; } else { assert all[i] in log; }
      }
    }
  }

  /** An install displaces every earlier path. */
  lemma InstallKeepsInstalls(w: World, winner: Selected, log: seq<PathEvent>)
    requires Installs(w.operations, w.record.selected, w.history, w.handles)
    requires winner.handle !in w.handles && PathSelected(winner.kind) in log
    ensures Installs(w.operations, Some(winner), w.history + log, w.handles + {winner.handle})
  {
    forall op | op in w.operations && w.operations[op].Installed?
      ensures !NoneSelected(w.history + log, w.operations[op].since)
    {
      NoneSelectedExtends(w.history, log, w.operations[op].since);
    }
  }

  lemma GuardCounted(operations: map<nat, Operation>, op: nat, o: Operation)
    requires op !in operations
    ensures |operations[op := o]| == |operations| + 1
  {
    assert operations[op := o].Keys == operations.Keys + {op};
  }

  lemma ConnectKeepsInv(w: World, op: nat)
    requires Inv(w)
    ensures Inv(Apply(w, Connect(op)))
  {
    hide PushAll, Recent, Logged, NoneSelected;
    var log := [StateChanged(w.record.state, Checking)];
    LoggedIsRecent(Moved(w.record, Checking).(activeOperations := w.record.activeOperations + 1), log, w.history);
    QuietSectionKeepsInstalls(w, w.record.selected, log);
    if op !in w.operations {
      GuardCounted(w.operations, op, Racing(Checking));
    }
  }

  lemma ReportFailedKeepsInv(w: World, op: nat)
    requires Inv(w)
    ensures Inv(Apply(w, ReportFailed(op)))
  {
    hide PushAll, Recent, Logged, NoneSelected;
    var r, log := w.record, [StateChanged(w.record.state, Rechecking)];
    LoggedIsRecent(Record(Rechecking, None, None, r.nextRecheckId, r.activeOperations + 1, r.events), log, w.history);
    QuietSectionKeepsInstalls(w, None, log);
    if op !in w.operations {
      GuardCounted(w.operations, op, Racing(Rechecking));
    }
  }

  lemma ReleasesKeepsInv(w: World, op: nat)
    requires Inv(w)
    ensures Inv(Releases(w, op))
  {
    hide Recent, NoneSelected;
    if op in w.operations {
      assert (w.operations - {op}).Keys == w.operations.Keys - {op};
    }
  }

  lemma FailsKeepsInv(w: World, op: nat)
    requires Inv(w) && op in w.operations
    ensures Inv(w.(operations := w.operations[op := Failing]))
  {
    hide Recent, NoneSelected;
    assert w.operations[op := Failing].Keys == w.operations.Keys;
  }

  lemma WinsKeepsInv(w: World, op: nat, winner: Selected, callerCancelled: bool)
    requires Inv(w) && op in w.operations && w.operations[op].Racing? && winner.handle !in w.handles
    ensures Inv(Wins(w, op, winner, callerCancelled))
  {
    hide PushAll, Recent, Logged;
    FailsKeepsInv(w, op);
    var next := StateFor(winner.kind);
    var tail := if next == Relay then [RelayFallback] else [];
    var log := [StateChanged(w.record.state, next), PathSelected(winner.kind)] + tail;
    assert log[1] == PathSelected(winner.kind);
    LoggedIsRecent(Moved(w.record, next).(selected := Some(winner)), log, w.history);
    InstallKeepsInstalls(w, winner, log);
    assert w.operations[op := Installed(winner, |w.history + log|)].Keys == w.operations.Keys;
  }

  lemma BackgroundWinsKeepsInv(w: World, id: U64, winner: Selected, callerCancelled: bool)
    requires Inv(w) && winner.handle !in w.handles
    ensures Inv(BackgroundWins(w, id, winner, callerCancelled))
  {
    hide PushAll, Recent, Logged, NoneSelected;
    var next := StateFor(winner.kind);
    var tail := if next == Relay then [RelayFallback] else [Promoted(winner.kind)];
    var log := [StateChanged(w.record.state, next), PathSelected(winner.kind)] + tail;
    assert log[1] == PathSelected(winner.kind);
    LoggedIsRecent(Moved(w.record, next).(selected := Some(winner)), log, w.history);
    InstallKeepsInstalls(w, winner, log);
  }

  lemma AttemptEventKeepsInv(w: World, event: PathEvent)
    requires Inv(w) && !event.PathSelected?
    ensures Inv(Did(w, RecordEvent(w.record, event)))
  {
    hide PushAll, Recent, Logged, NoneSelected;
    LoggedIsRecent(w.record, [event], w.history);
    QuietSectionKeepsInstalls(w, w.record.selected, [event]);
  }

  lemma BackgroundKeepsInv(w: World, id: U64)
    requires Inv(w)
    ensures Inv(Did(w, BeginBackgroundRecheck(w.record, id))) && Inv(Did(w, FinishFailedRecheck(w.record, id)))
  {
    hide PushAll, Recent, Logged, NoneSelected;
    var start := [StateChanged(w.record.state, Rechecking), RecheckStarted];
    LoggedIsRecent(Moved(w.record, Rechecking), start, w.history);
    QuietSectionKeepsInstalls(w, w.record.selected, start);
    var back := [StateChanged(w.record.state, Relay), RecheckScheduled];
    LoggedIsRecent(Moved(w.record, Relay), back, w.history);
    QuietSectionKeepsInstalls(w, w.record.selected, back);
  }

  lemma CloseKeepsInv(w: World)
    requires Inv(w)
    ensures Inv(Did(w, CloseAtomic(w.record)))
  {
    hide PushAll, Recent, Logged, NoneSelected;
    var closed := Record(Closed, None, None, w.record.nextRecheckId, w.record.activeOperations, w.record.events);
    var log := [StateChanged(w.record.state, Closed), ClosedEvent];
    LoggedIsRecent(closed, log, w.history);
    QuietSectionKeepsInstalls(w, None, log);
  }

  lemma QuietStepsKeepInv(w: World, finished: bool)
    requires Inv(w)
    ensures Inv(w.(record := StartRecheck(w.record, finished)))
    ensures Inv(w.(cancelled := true))
    ensures w.record.state == Closed && w.record.activeOperations == 0 ==> Inv(w.(closeReturned := true))
  {
    hide Recent, NoneSelected;
  }

  lemma StepKeepsInv(w: World, step: Step)
    requires Inv(w)
    ensures Inv(Apply(w, step))
  {
    hide Inv, Did, Releases, BackgroundWins, Wins, Enters;
    match step
    case Connect(op) => ConnectKeepsInv(w, op);
    case ReportFailed(op) => ReportFailedKeepsInv(w, op);
    case AttemptEvent(event) =>
      if !event.PathSelected? { AttemptEventKeepsInv(w, event); }
    case LoseRace(op) =>
      if op in w.operations { FailsKeepsInv(w, op); }
    case WinRace(op, winner, callerCancelled) =>
      if op in w.operations && w.operations[op].Racing? && winner.handle !in w.handles {
        WinsKeepsInv(w, op, winner, callerCancelled);
      }
    case StartRecheckPass(op, finished) => QuietStepsKeepInv(w, finished);
    case Finish(op) => ReleasesKeepsInv(w, op);
    case DropGuard(op) => ReleasesKeepsInv(w, op);
    case BackgroundBegin(id) => BackgroundKeepsInv(w, id);
    case BackgroundFail(id) => BackgroundKeepsInv(w, id);
    case BackgroundWin(id, winner, callerCancelled) =>
      if winner.handle !in w.handles { BackgroundWinsKeepsInv(w, id, winner, callerCancelled); }
    case CloseRecord => CloseKeepsInv(w);
    case CancelLifetime => QuietStepsKeepInv(w, false);
    case CloseReturns => QuietStepsKeepInv(w, false);
  }

  // ---------------------------------------------------------------------------
  // Runs
  // ---------------------------------------------------------------------------

  /**
   In every interleaving: Direct and Relay have a path of their class selected, a
   foreground recheck has neither a path nor a recheck task, a background one has both,
   a closed manager has neither, and the operation count is the number of live guards.
   */
  lemma {:induction false} RunsKeepInv(steps: seq<Step>)
    ensures Inv(Run(Start(), steps))
  {
    if steps != [] {
      hide Inv, Apply;
      RunsKeepInv(steps[..|steps| - 1]);
      StepKeepsInv(Run(Start(), steps[..|steps| - 1]), steps[|steps| - 1]);
    }
  }

  lemma ClosedIsAbsorbing(w: World, step: Step)
    requires Inv(w) && w.record.state == Closed
    ensures var w' := Apply(w, step);
      && w'.record.state == Closed && w'.record.selected.None? && w'.record.recheck.None?
      && w'.record.events == w.record.events && w'.operations.Keys <= w.operations.Keys
      && (w.closeReturned ==> w'.closeReturned)
  {
    hide Recent, PushAll;
  }

  lemma ClosedHoldsNothing(w: World)
    requires Inv(w) && w.record.state == Closed
    ensures w.record.selected.None? && w.record.recheck.None?
  {
  }

  /** Once closed, always closed: nothing is selected, rechecked or recorded any more. */
  lemma {:induction false} ClosedForever(steps: seq<Step>, more: seq<Step>)
    requires Run(Start(), steps).record.state == Closed
    ensures var w, w' := Run(Start(), steps), Run(Start(), steps + more);
      && w'.record.state == Closed && w'.record.selected.None? && w'.record.recheck.None?
      && w'.record.events == w.record.events && w'.operations.Keys <= w.operations.Keys
      && (w.closeReturned ==> w'.closeReturned)
    decreases |more|
  {
    hide Inv, Apply, Run;
    if more == [] {
      RunsKeepInv(steps);
      ClosedHoldsNothing(Run(Start(), steps));
      assert steps + more == steps;
    } else {
      var n := |more| - 1;
      ClosedForever(steps, more[..n]);
      RunsKeepInv(steps + more[..n]);
      assert steps + more[..n] + [more[n]] == steps + more;
      RunNext(steps + more[..n], more[n]);
      ClosedIsAbsorbing(Run(Start(), steps + more[..n]), more[n]);
    }
  }

  /** After `close` has returned there are no operations, and there never will be. */
  lemma {:induction false} NoOperationsAfterClose(steps: seq<Step>, more: seq<Step>)
    requires Run(Start(), steps).closeReturned
    ensures var w := Run(Start(), steps + more);
      w.record.activeOperations == 0 && w.operations == map[] && w.record.state == Closed
  {
    hide Run, Recent;
    RunsKeepInv(steps);
    ClosedForever(steps, more);
    RunsKeepInv(steps + more);
  }

  /** A published result means a path of the same class is selected at that moment. */
  lemma {:induction false} PublishedClassIsSelected(steps: seq<Step>, op: nat)
    requires var w := Run(Start(), steps); op in w.operations && w.operations[op].Installed?
    requires var w := Run(Start(), steps); w.record.state == StateFor(w.operations[op].path.kind)
    ensures var w := Run(Start(), steps);
      w.record.selected.Some? && (IsDirect(w.record.selected.value.kind) <==> IsDirect(w.operations[op].path.kind))
  {
    hide Run, Recent, RacesAlone;
    RunsKeepInv(steps);
  }

  /**
   The published path itself need not be the selected one any more: a failure reported
   after the install can put another path of the same class in its place.
   */
  lemma PublishedPathMayBeReplaced()
    ensures var first, second := Selected(1, QuicV4), Selected(2, QuicV4);
      var w := Run(Start(), [Connect(0), WinRace(0, first, false), ReportFailed(1), WinRace(1, second, false)]);
      && 0 in w.operations && w.operations[0].Installed? && w.operations[0].path == first
      && w.record.state == StateFor(first.kind) && w.record.selected == Some(second)
  {
    hide PushAll, Run;
    var first, second := Selected(1, QuicV4), Selected(2, QuicV4);
    var a, b, c, d := Connect(0), WinRace(0, first, false), ReportFailed(1), WinRace(1, second, false);
    assert [a] + [b] == [a, b] && [a, b] + [c] == [a, b, c] && [a, b, c] + [d] == [a, b, c, d] && [] + [a] == [a];
    EmptyRun();
    RunNext([], a);
    RunNext([a], b);
    RunNext([a, b], c);
    RunNext([a, b, c], d);
    var w1 := Apply(Start(), a);
    var w2 := Apply(w1, b);
    assert w2.record.state == Direct && w2.operations[0] == Installed(first, |w2.history|);
    var w3 := Apply(w2, c);
    assert w3.record.state == Rechecking && w3.operations[0] == w2.operations[0]
      && w3.operations[1] == Racing(Rechecking);
  }

  /**
   Exactly when the published path is the selected one: no event since the operation's own
   install says that a path was selected.
   */
  lemma {:induction false} PublishedPathIsSelectedIff(steps: seq<Step>, op: nat)
    requires var w := Run(Start(), steps); op in w.operations && w.operations[op].Installed?
    requires var w := Run(Start(), steps); w.record.state == StateFor(w.operations[op].path.kind)
    ensures var w := Run(Start(), steps); var o := w.operations[op];
      && o.since <= |w.history|
      && (w.record.selected == Some(o.path) <==> forall e | e in w.history[o.since..] :: !e.PathSelected?)
  {
    hide Run, Recent, RacesAlone;
    RunsKeepInv(steps);
    var w := Run(Start(), steps);
    var o := w.operations[op];
    var later := w.history[o.since..];
    assert w.history[..o.since] + later == w.history;
    NoneSelectedExtends(w.history[..o.since], later, o.since);
    assert SelectsNothing(later) <==> NoneSelected(w.history, o.since);
  }

  lemma EmptyRun()
    ensures Run(Start(), []) == Start()
  {
  }

  lemma RunNext(steps: seq<Step>, s: Step)
    ensures Run(Start(), steps + [s]) == Apply(Run(Start(), steps), s)
  {
    assert (steps + [s])[..|steps|] == steps;
  }
}
