/** The mutex-protected record of the path manager; each function is one lock-held section. */
module PathRecord {
  import opened Wrappers

  const MAX_RECORDED_EVENTS: nat := 256

  datatype PathState = Discovering | Checking | Direct | Relay | Rechecking | Closed
  datatype PathKind = QuicV6 | QuicV4 | NativeTcp | RelayPath

  /** An authenticated path; `handle` tells paths of one kind apart. */
  datatype Selected = Selected(handle: nat, kind: PathKind)

  datatype PathEvent =
    | StateChanged(from: PathState, to: PathState)
    | AttemptStarted(kind: PathKind)
    | AttemptFailed(kind: PathKind)
    | PathSelected(kind: PathKind)
    | RelayFallback
    | RecheckStarted
    | RecheckScheduled
    | Promoted(kind: PathKind)
    | ClosedEvent

  datatype Record = Record(
    state: PathState, selected: Option<Selected>, recheck: Option<U64>,
    nextRecheckId: U64, activeOperations: nat, events: seq<PathEvent>)

  predicate IsDirect(k: PathKind) {
    !k.RelayPath?
  }

  predicate Legal(from: PathState, to: PathState) {
    match from
    case Discovering => to == Checking || to == Closed
    case Checking => to == Direct || to == Relay || to == Closed
    case Direct => to == Rechecking || to == Closed
    case Relay => to == Rechecking || to == Closed
    case Rechecking => to == Direct || to == Relay || to == Closed
    case Closed => false
  }

  /** The state a winner of this kind leads to. */
  function StateFor(k: PathKind): PathState {
    if IsDirect(k) then Direct else Relay
  }

  // ---------------------------------------------------------------------------
  // Events
  // ---------------------------------------------------------------------------

  /** Appends an event, dropping the oldest of a full record. */
  function Push(events: seq<PathEvent>, e: PathEvent): (s: seq<PathEvent>) {
    if |events| == MAX_RECORDED_EVENTS then events[1..] + [e] else events + [e]
  }

  function PushAll(events: seq<PathEvent>, more: seq<PathEvent>): seq<PathEvent>
    decreases |more|
  {
    if more == [] then events else PushAll(Push(events, more[0]), more[1..])
  }

  lemma PushTwo(events: seq<PathEvent>, a: PathEvent, b: PathEvent)
    ensures PushAll(events, [a]) == Push(events, a)
    ensures PushAll(events, [a, b]) == Push(Push(events, a), b)
  {
    hide Push;
    assert [a][1..] == [] && [a, b][1..] == [b] && [b][1..] == [];
    assert PushAll(Push(events, a), [b]) == PushAll(Push(Push(events, a), b), []);
  }

  /** The last 256 events of a history. */
  function Recent(history: seq<PathEvent>): seq<PathEvent> {
    if |history| <= MAX_RECORDED_EVENTS then history else history[|history| - MAX_RECORDED_EVENTS..]
  }

  lemma PushIsRecent(history: seq<PathEvent>, e: PathEvent)
    ensures Push(Recent(history), e) == Recent(history + [e])
  {
  }

  /** Whatever is pushed, the record holds exactly the latest events of the whole history. */
  lemma {:induction false} PushAllIsRecent(history: seq<PathEvent>, more: seq<PathEvent>)
    ensures PushAll(Recent(history), more) == Recent(history + more)
    decreases |more|
  {
    if more == [] {
      assert history + more == history;
    } else {
      hide Push, Recent;
      PushIsRecent(history, more[0]);
      PushAllIsRecent(history + [more[0]], more[1..]);
      assert history + [more[0]] + more[1..] == history + more;
    }
  }

  // ---------------------------------------------------------------------------
  // Lock-held sections: the new record and the events it recorded
  // ---------------------------------------------------------------------------

  /** What one section did to the record; `log` is what it recorded, oldest first. */
  datatype Section = Section(record: Record, log: seq<PathEvent>)

  function Logged(r: Record, log: seq<PathEvent>): Section {
    Section(r.(events := PushAll(r.events, log)), log)
  }

  function Unchanged(r: Record): Section {
    Section(r, [])
  }

  function Moved(r: Record, to: PathState): Record {
    r.(state := to)
  }

  function RecordEvent(r: Record, e: PathEvent): Section {
    if r.state == Closed then Unchanged(r) else Logged(r, [e])
  }

  function Begin(r: Record, next: PathState): Option<Section> {
    if !Legal(r.state, next) then None
    else Some(Logged(Moved(r, next).(activeOperations := r.activeOperations + 1), [StateChanged(r.state, next)]))
  }

  /** A reported failure takes the selected path and its recheck out of the record. */
  function BeginFailure(r: Record): Option<Section> {
    if !Legal(r.state, Rechecking) then None
    else
      Some(Logged(Record(Rechecking, None, None, r.nextRecheckId, r.activeOperations + 1, r.events),
        [StateChanged(r.state, Rechecking)]))
  }

  function CloseAtomic(r: Record): Section {
    var closed := Record(Closed, None, None, r.nextRecheckId, r.activeOperations, r.events);
    if r.state == Closed then Unchanged(closed) else Logged(closed, [StateChanged(r.state, Closed), ClosedEvent])
  }

  function BeginBackgroundRecheck(r: Record, id: U64): Section {
    if r.recheck != Some(id) || r.state != Relay then Unchanged(r)
    else Logged(Moved(r, Rechecking), [StateChanged(r.state, Rechecking), RecheckStarted])
  }

  function FinishFailedRecheck(r: Record, id: U64): Section {
    if r.recheck != Some(id) || r.state != Rechecking then Unchanged(r)
    else Logged(Moved(r, Relay), [StateChanged(r.state, Relay), RecheckScheduled])
  }

  /** Installs a race winner; None when the record has moved on. */
  function Install(r: Record, expected: PathState, recheckId: Option<U64>, winner: Selected): Option<Section> {
    var next := StateFor(winner.kind);
    if r.state != expected || (recheckId.Some? && r.recheck != recheckId) || !Legal(r.state, next) then None
    else
      var tail := if next == Relay then [RelayFallback] else if recheckId.Some? then [Promoted(winner.kind)] else [];
      Some(Logged(Moved(r, next).(selected := Some(winner)),
        [StateChanged(r.state, next), PathSelected(winner.kind)] + tail))
  }

  function NextId(id: U64): U64 {
    if id == U64_MAX then 1 else Max(id + 1, 1)
  }

  /** One pass of the recheck starter; `finished` says whether the owned task has ended. */
  function StartRecheck(r: Record, finished: bool): Record {
    if r.state != Relay then r
    else if r.recheck.Some? then (if finished then r.(recheck := None) else r)
    else r.(recheck := Some(r.nextRecheckId), nextRecheckId := NextId(r.nextRecheckId))
  }

  function ReleaseGuard(r: Record): Record {
    r.(activeOperations := SaturatingSub(r.activeOperations, 1))
  }

  // ---------------------------------------------------------------------------
  // The record updated in place
  // ---------------------------------------------------------------------------

  class ManagerRecord {
    var state: PathState
    var selected: Option<Selected>
    var recheck: Option<U64>
    var nextRecheckId: U64
    var activeOperations: nat
    var events: seq<PathEvent>

    constructor ()
      ensures View() == Record(Discovering, None, None, 1, 0, [])
    {
      state, selected, recheck, nextRecheckId, activeOperations, events := Discovering, None, None, 1, 0, [];
    }

    function View(): Record
      reads this
    {
      Record(state, selected, recheck, nextRecheckId, activeOperations, events)
    }

    method PushEvent(e: PathEvent)
      modifies this`events
      ensures events == Push(old(events), e)
    {
      if |events| == MAX_RECORDED_EVENTS {
        events := events[1..];
      }
      events := events + [e];
    }

    method Transition(next: PathState) returns (ok: bool)
      modifies this`state, this`events
      ensures ok <==> Legal(old(state), next)
      ensures ok ==> state == next && events == Push(old(events), StateChanged(old(state), next))
      ensures !ok ==> state == old(state) && events == old(events)
    {
      if !Legal(state, next) { return false; }
      var from := state;
      state := next;
      PushEvent(StateChanged(from, next));
      ok := true;
    }

    method Enter(next: PathState) returns (ok: bool)
      modifies this`state, this`events, this`activeOperations
      ensures ok <==> Begin(old(View()), next).Some?
      ensures View() == if ok then Begin(old(View()), next).value.record else old(View())
    {
      hide Push;
      PushTwo(events, StateChanged(state, next), ClosedEvent);
      ok := Transition(next);
      if ok {
        activeOperations := activeOperations + 1;
      }
    }

    method EnterFailure() returns (ok: bool, taken: Option<Selected>, stopped: Option<U64>)
      modifies this
      ensures ok <==> BeginFailure(old(View())).Some?
      ensures View() == if ok then BeginFailure(old(View())).value.record else old(View())
      ensures ok ==> taken == old(selected) && stopped == old(recheck)
    {
      hide Push;
      PushTwo(events, StateChanged(state, Rechecking), ClosedEvent);
      taken, stopped := None, None;
      ok := Transition(Rechecking);
      if ok {
        activeOperations := activeOperations + 1;
        taken, stopped := selected, recheck;
        selected, recheck := None, None;
      }
    }

    method Close() returns (taken: Option<Selected>, stopped: Option<U64>)
      modifies this
      ensures View() == CloseAtomic(old(View())).record
      ensures taken == old(selected) && stopped == old(recheck)
    {
      hide Push;
      PushTwo(events, StateChanged(state, Closed), ClosedEvent);
      if state != Closed {
        var ok := Transition(Closed);
        PushEvent(ClosedEvent);
      }
      taken, stopped := selected, recheck;
      selected, recheck := None, None;
    }

    method InstallWinner(expected: PathState, recheckId: Option<U64>, winner: Selected) returns (ok: bool,
        displaced: Option<Selected>)
      modifies this
      ensures ok <==> Install(old(View()), expected, recheckId, winner).Some?
      ensures View() == if ok then Install(old(View()), expected, recheckId, winner).value.record else old(View())
      ensures ok ==> displaced == old(selected)
    {
      hide Push;
      displaced := None;
      var next := StateFor(winner.kind);
      if state != expected || (recheckId.Some? && recheck != recheckId) { return false, None; }
      ok := Transition(next);
      if !ok { return; }
      displaced := selected;
      selected := Some(winner);
      PushEvent(PathSelected(winner.kind));
      if next == Relay {
        PushEvent(RelayFallback);
      } else if recheckId.Some? {
        PushEvent(Promoted(winner.kind));
      }
      InstallLog(old(events), old(state), next, winner.kind, recheckId.Some?);
    }

    method BeginBackground(id: U64) returns (ok: bool)
      modifies this`state, this`events
      ensures ok <==> old(recheck) == Some(id) && old(state) == Relay
      ensures View() == BeginBackgroundRecheck(old(View()), id).record
    {
      hide Push;
      PushTwo(events, StateChanged(state, Rechecking), RecheckStarted);
      if recheck != Some(id) || state != Relay { return false; }
      ok := Transition(Rechecking);
      PushEvent(RecheckStarted);
    }

    method FinishFailed(id: U64) returns (ok: bool)
      modifies this`state, this`events
      ensures ok <==> old(recheck) == Some(id) && old(state) == Rechecking
      ensures View() == FinishFailedRecheck(old(View()), id).record
    {
      hide Push;
      PushTwo(events, StateChanged(state, Relay), RecheckScheduled);
      if recheck != Some(id) || state != Rechecking { return false; }
      ok := Transition(Relay);
      PushEvent(RecheckScheduled);
    }

    method StartRecheckTask(finished: bool)
      modifies this`recheck, this`nextRecheckId
      ensures View() == StartRecheck(old(View()), finished)
    {
      if state == Relay {
        if recheck.None? {
          recheck := Some(nextRecheckId);
          nextRecheckId := NextId(nextRecheckId);
        } else if finished {
          recheck := None;
        }
      }
    }

    /** Ends an operation; its path counts as published only if the state is still the expected one. */
    method FinishOperation(expected: PathState) returns (published: bool)
      modifies this`activeOperations
      ensures View() == ReleaseGuard(old(View())) && (published <==> old(state) == expected)
    {
      published := state == expected;
      activeOperations := SaturatingSub(activeOperations, 1);
    }
  }

  lemma InstallLog(events: seq<PathEvent>, from: PathState, next: PathState, kind: PathKind, promoted: bool)
    ensures var tail := if next == Relay then [RelayFallback] else if promoted then [Promoted(kind)] else [];
      var two := Push(Push(events, StateChanged(from, next)), PathSelected(kind));
      PushAll(events, [StateChanged(from, next), PathSelected(kind)] + tail) ==
        if tail == [] then two else Push(two, tail[0])
  {
    hide Push;
    var tail := if next == Relay then [RelayFallback] else if promoted then [Promoted(kind)] else [];
    var log := [StateChanged(from, next), PathSelected(kind)] + tail;
    assert log[1..] == [PathSelected(kind)] + tail && log[1..][1..] == tail;
    var two := Push(Push(events, StateChanged(from, next)), PathSelected(kind));
    assert PushAll(events, log) == PushAll(Push(events, log[0]), log[1..]) == PushAll(two, tail);
    if tail != [] {
      PushTwo(two, tail[0], tail[0]);
      assert tail == [tail[0]];
    }
  }
}
