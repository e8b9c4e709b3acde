/**
 What the history worker gets done. While the database answers, everything offered is written
 in order; a closed worker stops; it works only on an open connection, reopens it after every
 failure, and enforces the size cap between any two transactions.
 */
module HistoryProgress {
  import opened HistoryQueue
  import opened HistoryWorker

  // ---------------------------------------------------------------------------
  // Offers
  // ---------------------------------------------------------------------------

  /** The batches the steps offer, numbered in order. */
  function OfferedBy(steps: seq<Step>): seq<Batch> {
    if steps == [] then []
    else
      var before, step := OfferedBy(steps[..|steps| - 1]), steps[|steps| - 1];
      if step.Offer? then before + [Batch(|before|, step.bytes)] else before
  }

  /** Every offer is in the books, in order and with its size, whatever became of it. */
  lemma {:induction false} EveryOfferIsBooked(steps: seq<Step>)
    ensures Run(steps).books.offered == OfferedBy(steps)
  {
    if steps != [] {
      hide WorkStep;
      EveryOfferIsBooked(steps[..|steps| - 1]);
      var s, step := Run(steps[..|steps| - 1]), steps[|steps| - 1];
      if step.Work? {
        WorkOffersNothing(s, step.choice);
      }
    }
  }

  lemma WorkOffersNothing(s: State, c: Choice)
    ensures WorkStep(s, c).books.offered == s.books.offered
  {
    hide Background, Batches, DrainCount;
  }

  /** An oversized batch is dropped, a closed queue refuses, and only otherwise the queue decides. */
  lemma OfferVerdicts(s: State, bytes: nat, oversized: bool)
    ensures var s', b := Apply(s, Offer(bytes, oversized)), Batch(|s.books.offered|, bytes);
      && (oversized || bytes > MAX_HISTORY_QUEUE_BYTES ==>
            s'.queue == s.queue && s'.books.dropped == s.books.dropped + [b] && s'.books.refused == s.books.refused)
      && (!oversized && bytes <= MAX_HISTORY_QUEUE_BYTES && s.queue.closed ==>
            s'.queue == s.queue && s'.books.dropped == s.books.dropped && s'.books.refused == s.books.refused + [b])
      && (!oversized && bytes <= MAX_HISTORY_QUEUE_BYTES && !s.queue.closed ==>
            s'.queue == s.queue.Pushed(b).queue && s'.books.refused == s.books.refused)
  {
  }

  /** A control command is queued unless the queue is closed or holds 128 of them; closing closes. */
  lemma {:induction false} ControlsAreQueued(steps: seq<Step>)
    ensures var s, s' := Run(steps), Apply(Run(steps), OfferControl);
      && s'.(queue := s.queue) == s
      && s'.queue.commands == (if s.queue.closed || Controls(s.queue.commands) >= HISTORY_CONTROL_QUEUE_CAPACITY
                               then s.queue.commands else s.queue.commands + [Control])
    ensures var s := Run(steps); Apply(s, Close) == s.(queue := s.queue.(closed := true))
  {
    hide Run;
    CountersAreExact(steps);
  }

  // ---------------------------------------------------------------------------
  // Single turns
  // ---------------------------------------------------------------------------

  /** The worker needs an open connection at this point. */
  predicate NeedsConnection(p: Point) {
    p.RetryPoint? || p.Retrying? || p.BackgroundPoint? || p.SelectPoint? || p.Draining? || p.Persisting? || p.Releasing?
  }

  /** What holds of the flags at each point. */
  ghost predicate Disciplined(s: State) {
    && (NeedsConnection(s.point) ==> s.flags.connected)
    && (s.point == FailPoint || s.point == OpenPoint ==> !s.flags.connected)
    && (s.point.Persisting? ==> s.point.batches != [])
    && (s.point == SelectPoint && s.flags.backgroundTurn ==> !s.flags.cap && s.flags.maintenance.NoJob?)
    && (s.point.Draining? || s.point.Persisting? || (s.point.Releasing? && !s.point.retried) ==>
          !s.flags.cap && s.flags.maintenance != Job(true) && s.flags.backgroundTurn)
  }

  lemma StepKeepsDiscipline(s: State, step: Step)
    requires Disciplined(s)
    ensures Disciplined(Apply(s, step))
  {
    hide Batches, DrainCount;
  }

  /**
   In every run the worker retries, selects, drains, persists and releases only on an open
   connection, and a transaction is in its hands only while no cap work is pending.
   */
  lemma {:induction false} RunsAreDisciplined(steps: seq<Step>)
    ensures Disciplined(Run(steps))
  {
    if steps != [] {
      hide Disciplined, Apply;
      RunsAreDisciplined(steps[..|steps| - 1]);
      StepKeepsDiscipline(Run(steps[..|steps| - 1]), steps[|steps| - 1]);
    }
  }

  /** A write that fails ends the connection, so the database is opened again before the next attempt. */
  lemma FailureReopens(s: State, c: Choice)
    requires (s.point.Retrying? || s.point.Persisting?) && !c.persists
    ensures var s' := WorkStep(s, c); s'.point == Top && !s'.flags.connected
    ensures var s' := WorkStep(s, c); !s.queue.closed ==> WorkStep(s', c).point == FailPoint
  {
  }

  /** A successful open connects and makes cap work pending; a failed one tries again. */
  lemma OpeningStartsCapWork(s: State, c: Choice)
    requires s.point == OpenPoint
    ensures var s' := WorkStep(s, c);
      if c.opens then s'.point == RetryPoint && s'.flags.connected && s'.flags.cap && s'.flags.backgroundTurn
      else s'.point == Top && s'.flags == s.flags
  {
  }

  /** Before an open the queued control commands are failed when there has been a failure. */
  lemma WaitingControlsAreFailed(s: State, c: Choice)
    requires s.point == FailPoint
    ensures var s' := WorkStep(s, c);
      && s'.point == OpenPoint && Batches(s'.queue.commands) == Batches(s.queue.commands)
      && Controls(s'.queue.commands) == if c.failControls then 0 else Controls(s.queue.commands)
  {
  }

  /** Every commit makes cap work pending; after a retry the worker turns to it at once. */
  lemma CommitsMakeCapWorkPending(s: State, c: Choice)
    requires s.point.Releasing? && s.point.rest == []
    ensures var s' := WorkStep(s, c);
      && s'.flags.cap && s'.flags.maintenance == s.flags.maintenance && s'.flags.connected == s.flags.connected
      && (if s.point.retried then s'.point == BackgroundPoint && s'.flags.backgroundTurn else s'.point == Top)
  {
  }

  lemma CommitsAreReleased(s: State, c: Choice)
    requires (s.point.Retrying? || s.point.Persisting?) && c.persists
    ensures WorkStep(s, c).point ==
      if s.point.Retrying? then Releasing([s.point.entry.batch], true) else Releasing(s.point.batches, false)
  {
  }

  /** A control command at the front is always served; it may start a maintenance job or end the connection. */
  lemma ControlsAreServed(s: State, c: Choice)
    requires s.point == SelectPoint && s.queue.commands != [] && s.queue.commands[0].Control?
    ensures var s' := WorkStep(s, c);
      && s'.queue == s.queue.Popped() && s'.point == Top && s'.flags.backgroundTurn && s'.flags.cap == s.flags.cap
      && (s'.flags.connected <==> s.flags.connected && !c.controlFails)
      && s'.flags.maintenance == if s.flags.maintenance.NoJob? && c.startsJob then Job(false) else s.flags.maintenance
  {
  }

  /** With nothing to serve the worker goes round, giving pending background work its turn. */
  lemma IdleTurns(s: State, c: Choice)
    requires s.point == SelectPoint && s.queue.commands == []
    ensures var s' := WorkStep(s, c);
      && s'.point == Top && s'.queue == s.queue
      && (s'.flags.backgroundTurn <==> s.flags.backgroundTurn || s.flags.cap || s.flags.maintenance.Job?)
      && s'.flags.(backgroundTurn := false) == s.flags.(backgroundTurn := false)
  {
  }

  // ---------------------------------------------------------------------------
  // A database that answers
  // ---------------------------------------------------------------------------

  /** The database opens, writes and finishes its work, and nothing new falls due. */
  predicate Healthy(c: Choice) {
    && c.opens && c.persists && !c.due && c.capResult == CapDone && c.jobResult == JobDone
    && !c.controlFails && !c.startsJob
  }

  function Flag(b: bool): nat {
    if b then 1 else 0
  }

  /** How much is left to do; cap work still to be made pending counts already. */
  function Left(s: State): nat {
    var pendingCap := s.flags.cap || s.point.Releasing?;
    var turn := s.flags.backgroundTurn || s.point.Releasing?;
    100 * |Unwritten(s)| + 50 * Controls(s.queue.commands) + 30 * Flag(!s.flags.connected) + 20 * Flag(pendingCap)
    + 20 * Flag(s.flags.maintenance.Job?) + 10 * Flag(!turn) + 5 * Flag(s.point.Releasing? && !s.point.retried)
  }

  function Rank(p: Point): nat {
    match p
    case Top => 9
    case FailPoint => 8
    case OpenPoint => 7
    case RetryPoint => 6
    case Retrying(_) => 5
    case Releasing(_, _) => 4
    case BackgroundPoint => 3
    case SelectPoint => 2
    case Draining(_) => 1
    case _ => 0
  }

  function Releases(p: Point): nat {
    if p.Releasing? then |p.rest| else 0
  }

  /** Closer to the end in the order of work left, point and releases. */
  ghost predicate Closer(s: State, s': State) {
    || Left(s') < Left(s)
    || (Left(s') == Left(s) && Rank(s'.point) < Rank(s.point))
    || (Left(s') == Left(s) && Rank(s'.point) == Rank(s.point) && Releases(s'.point) < Releases(s.point))
  }

  /** Nothing is lost and the order of what is written and still to be written stays. */
  ghost predicate SameFlow(s: State, s': State) {
    && s'.books.persisted + Unwritten(s') == s.books.persisted + Unwritten(s)
    && s'.books.dropped == s.books.dropped && s'.books.refused == s.books.refused
  }

  /** The worker is running on an open queue with something left to write. */
  ghost predicate Busy(s: State) {
    Inv(s) && Disciplined(s) && !s.queue.closed && Unwritten(s) != []
  }

  lemma OpeningAdvances(s: State, c: Choice)
    requires Busy(s) && Healthy(c) && s.point in {Top, FailPoint, OpenPoint}
    ensures var s' := WorkStep(s, c); Closer(s, s') && SameFlow(s, s')
  {
    hide Inv, Batches, RetryBatches;
  }

  lemma RetryingAdvances(s: State, c: Choice)
    requires Busy(s) && Healthy(c) && (s.point == RetryPoint || s.point.Retrying?)
    ensures var s' := WorkStep(s, c); Closer(s, s') && SameFlow(s, s')
  {
    hide Inv, Batches;
    var s', queued := WorkStep(s, c), Batches(s.queue.commands);
    if s.point == RetryPoint {
      RetryPointKeepsUnwritten(s);
    } else {
      var b, rest := s.point.entry.batch, RetryBatches(s.retry) + queued;
      assert Unwritten(s) == [b] + rest && Unwritten(s') == rest;
      Associative(s.books.persisted, [b], rest);
    }
  }

  lemma ReleasingAdvances(s: State, c: Choice)
    requires Busy(s) && Healthy(c) && s.point.Releasing?
    ensures var s' := WorkStep(s, c); Closer(s, s') && SameFlow(s, s')
  {
    hide Inv, Batches, RetryBatches;
    assert Unwritten(WorkStep(s, c)) == Unwritten(s);
  }

  lemma BackgroundAdvances(s: State, c: Choice)
    requires Busy(s) && Healthy(c) && s.point == BackgroundPoint
    ensures var s' := WorkStep(s, c); Closer(s, s') && SameFlow(s, s')
  {
    hide Inv, Batches, RetryBatches, Background;
    var s', t := WorkStep(s, c), Background(s.flags, c);
    assert s'.flags == t.flags && s'.point == t.point && Unwritten(s') == Unwritten(s);
  }

  lemma IdleSelectAdvances(s: State, c: Choice)
    requires Busy(s) && Healthy(c) && s.point == SelectPoint
    requires s.queue.commands == [] || (CapPendingIn(s.flags) && s.queue.commands[0].BatchCommand?)
    ensures var s' := WorkStep(s, c); Closer(s, s') && SameFlow(s, s')
  {
    hide Placed, Attempts, Exact, Committed;
    var s' := WorkStep(s, c);
    assert s'.queue == s.queue && s'.retry == s.retry && Unwritten(s') == Unwritten(s);
    if s.queue.commands == [] {
      assert Unwritten(s) == RetryBatches(s.retry) + [] && s.retry != [];
    }
    assert !s.flags.backgroundTurn && s'.flags.backgroundTurn;
  }

  /** What serving the front command leaves behind. */
  lemma ServedFront(s: State, c: Choice)
    requires Healthy(c) && s.point == SelectPoint && s.queue.commands != []
    requires !(CapPendingIn(s.flags) && s.queue.commands[0].BatchCommand?)
    ensures var s' := WorkStep(s, c);
      && s'.queue.commands == s.queue.commands[1..] && s'.books == s.books
      && s'.flags == s.flags.(backgroundTurn := true)
      && s'.point == if s.queue.commands[0].Control? then Top else Draining(s.queue.commands[0].batch)
  {
  }

  lemma ServingSelectAdvances(s: State, c: Choice)
    requires Busy(s) && Healthy(c) && s.point == SelectPoint && s.queue.commands != []
    requires !(CapPendingIn(s.flags) && s.queue.commands[0].BatchCommand?)
    ensures var s' := WorkStep(s, c); Closer(s, s') && SameFlow(s, s')
  {
    SelectKeepsUnwritten(s, c);
    ServedFront(s, c);
    ControlsAtFront(s.queue.commands);
    hide Inv, WorkStep, Unwritten, Controls, Batches, Disciplined, Healthy;
  }

  lemma SelectAdvances(s: State, c: Choice)
    requires Busy(s) && Healthy(c) && s.point == SelectPoint
    ensures var s' := WorkStep(s, c); Closer(s, s') && SameFlow(s, s')
  {
    hide Busy, WorkStep, Closer, SameFlow, Healthy;
    if s.queue.commands == [] || (CapPendingIn(s.flags) && s.queue.commands[0].BatchCommand?) {
      IdleSelectAdvances(s, c);
    } else {
      ServingSelectAdvances(s, c);
    }
  }

  lemma ControlsAtFront(commands: seq<Command>)
    requires commands != []
    ensures Controls(commands) == Controls(commands[1..]) + if commands[0].Control? then 1 else 0
  {
  }

  lemma DrainingAdvances(s: State, c: Choice)
    requires Busy(s) && Healthy(c) && s.point.Draining?
    ensures var s' := WorkStep(s, c); Closer(s, s') && SameFlow(s, s')
  {
    hide Placed, Attempts, Exact, Committed, DrainCount, Batches;
    DrainingKeepsUnwritten(s);
    var n := DrainCount(s.queue.commands, [s.point.first]);
    PrefixBatches(s.queue.commands, n);
    DrainedCommands(s.queue, n);
  }

  lemma PersistingAdvances(s: State, c: Choice)
    requires Busy(s) && Healthy(c) && s.point.Persisting?
    ensures var s' := WorkStep(s, c); Closer(s, s') && SameFlow(s, s')
  {
    hide Placed, Attempts, Exact, Committed, Batches;
    var s', batches, queued := WorkStep(s, c), s.point.batches, Batches(s.queue.commands);
    assert Unwritten(s) == batches + queued && Unwritten(s') == queued;
    Associative(s.books.persisted, batches, queued);
  }

  /** With a database that answers every step of a busy worker brings it closer to the end. */
  lemma HealthyStepAdvances(s: State, c: Choice)
    requires Busy(s) && Healthy(c)
    ensures var s' := WorkStep(s, c); Closer(s, s') && SameFlow(s, s')
  {
    hide Busy, WorkStep, Closer, SameFlow, Healthy;
    OpenQueueIsNotClosing(s);
    match s.point
    case Top => OpeningAdvances(s, c);
    case FailPoint => OpeningAdvances(s, c);
    case OpenPoint => OpeningAdvances(s, c);
    case RetryPoint => RetryingAdvances(s, c);
    case Retrying(_) => RetryingAdvances(s, c);
    case BackgroundPoint => BackgroundAdvances(s, c);
    case SelectPoint => SelectAdvances(s, c);
    case Draining(_) => DrainingAdvances(s, c);
    case Persisting(_) => PersistingAdvances(s, c);
    case Releasing(_, _) => ReleasingAdvances(s, c);
    case _ =>
  }

  lemma OpenQueueIsNotClosing(s: State)
    requires Busy(s)
    ensures s.point != Closing && s.point != Discarding && s.point != Stopped
  {
    hide Placed, Attempts, Exact, Committed;
  }

  lemma WorkKeepsQueueOpen(s: State, c: Choice)
    requires !s.queue.closed
    ensures !WorkStep(s, c).queue.closed
  {
    hide Batches, Background, DrainCount;
    if s.point.Draining? {
      DrainedCommands(s.queue, DrainCount(s.queue.commands, [s.point.first]));
    }
  }

  /** The same choice, worked `n` times. */
  function Works(c: Choice, n: nat): seq<Step> {
    if n == 0 then [] else [Work(c)] + Works(c, n - 1)
  }

  lemma RunWork(steps: seq<Step>, c: Choice)
    ensures Run(steps + [Work(c)]) == WorkStep(Run(steps), c)
  {
    hide WorkStep;
    assert (steps + [Work(c)])[..|steps|] == steps;
  }

  lemma BusyOrDone(steps: seq<Step>)
    requires !Run(steps).queue.closed && Unwritten(Run(steps)) != []
    ensures Busy(Run(steps))
  {
    hide Run, Inv, Disciplined, Unwritten;
    RunsKeepInv(steps);
    RunsAreDisciplined(steps);
  }

  lemma {:induction false} CatchesUpFrom(steps: seq<Step>, c: Choice) returns (n: nat)
    requires !Run(steps).queue.closed && Healthy(c)
    ensures var s, s' := Run(steps), Run(steps + Works(c, n));
      Unwritten(s') == [] && SameFlow(s, s') && !s'.queue.closed
    decreases Left(Run(steps)), Rank(Run(steps).point), Releases(Run(steps).point)
  {
    hide Run, Busy, WorkStep, Left, Rank, Releases, Unwritten;
    var s := Run(steps);
    if Unwritten(s) == [] {
      n := 0;
      assert steps + [] == steps;
    } else {
      BusyOrDone(steps);
      HealthyStepAdvances(s, c);
      WorkKeepsQueueOpen(s, c);
      RunWork(steps, c);
      var m := CatchesUpFrom(steps + [Work(c)], c);
      n := m + 1;
      assert steps + Works(c, n) == steps + [Work(c)] + Works(c, m);
    }
  }

  /**
   Whatever happened before, a worker on an open queue that is given a database that answers
   writes everything it and the queue hold, in order, and loses nothing more.
   */
  lemma {:induction false} HealthyWorkerCatchesUp(steps: seq<Step>, c: Choice)
    requires !Run(steps).queue.closed && Healthy(c)
    ensures exists n: nat ::
      var s, s' := Run(steps), Run(steps + Works(c, n));
      && Unwritten(s') == [] && s'.books.persisted == s.books.persisted + Unwritten(s)
      && s'.books.dropped == s.books.dropped && s'.books.refused == s.books.refused
  {
    var n := CatchesUpFrom(steps, c);
    hide Run, Unwritten;
    var s' := Run(steps + Works(c, n));
    assert s'.books.persisted + [] == s'.books.persisted;
  }

  // ---------------------------------------------------------------------------
  // Closing
  // ---------------------------------------------------------------------------

  /** How far a worker on a closed queue is from stopping when its database answers. */
  function ToStop(p: Point): nat {
    match p
    case Stopped => 0
    case Discarding => 1
    case Closing => 2
    case Top => 3
    case SelectPoint => 8
    case BackgroundPoint => 9
    case Releasing(_, retried) => if retried then 10 else 4
    case Persisting(_) => 5
    case Draining(_) => 6
    case Retrying(_) => 11
    case RetryPoint => 12
    case OpenPoint => 13
    case FailPoint => 14
  }

  function Held(s: State): nat {
    if s.point == Closing then |s.retry| else Releases(s.point)
  }

  lemma ClosedStays(s: State, c: Choice)
    requires s.queue.closed
    ensures WorkStep(s, c).queue.closed
  {
    hide Batches, Background, FirstAttempts, Ids;
    if s.point.Draining? {
      DrainedCommands(s.queue, DrainCount(s.queue.commands, [s.point.first]));
    }
  }

  /** Every turn but a release and a drained retry list ends the point it is at. */
  lemma ClosedTurnAdvances(s: State, c: Choice)
    requires s.queue.closed && s.point != Stopped
    ensures var s' := WorkStep(s, c);
      ToStop(s'.point) < ToStop(s.point)
      || ((s.point.Closing? || s.point.Releasing?) && ToStop(s'.point) == ToStop(s.point) && Held(s') < Held(s))
  {
    hide Batches, DrainCount, Background, FirstAttempts, Ids;
    if s.point.BackgroundPoint? {
      assert Background(s.flags, c).point in {Top, SelectPoint};
    }
  }

  lemma ClosedStepAdvances(s: State, c: Choice)
    requires s.queue.closed && s.point != Stopped
    ensures var s' := WorkStep(s, c);
      && s'.queue.closed
      && (ToStop(s'.point) < ToStop(s.point) || (ToStop(s'.point) == ToStop(s.point) && Held(s') < Held(s)))
  {
    hide WorkStep, ToStop, Held;
    ClosedStays(s, c);
    ClosedTurnAdvances(s, c);
  }

  /** Once the queue is closed the worker stops after finitely many steps, whatever the database does. */
  lemma {:induction false} ClosedWorkerStops(steps: seq<Step>, choices: nat -> Choice)
    requires Run(steps).queue.closed
    ensures exists n: nat :: Run(steps + Chosen(choices, |steps|, n)).point == Stopped
    decreases ToStop(Run(steps).point), Held(Run(steps))
  {
    hide Run, WorkStep, ToStop, Held;
    var s, c := Run(steps), choices(|steps|);
    if s.point == Stopped {
      assert steps + Chosen(choices, |steps|, 0) == steps;
    } else {
      ClosedStepAdvances(s, c);
      RunWork(steps, c);
      var next := steps + [Work(c)];
      ClosedWorkerStops(next, choices);
      var m: nat :| Run(next + Chosen(choices, |next|, m)).point == Stopped;
      assert Chosen(choices, |steps|, m + 1) == [Work(c)] + Chosen(choices, |next|, m);
      assert steps + Chosen(choices, |steps|, m + 1) == next + Chosen(choices, |next|, m);
    }
  }

  /** The choices the database and the clock make from the given step on. */
  function Chosen(choices: nat -> Choice, from: nat, n: nat): seq<Step>
    decreases n
  {
    if n == 0 then [] else [Work(choices(from))] + Chosen(choices, from + 1, n - 1)
  }

  predicate EndedItsJob(s: State) {
    s.point.Closing? || s.point.Discarding? || s.point.Stopped? ==> s.flags.maintenance == NoJob
  }

  /** Only the head of the loop leads to the end. */
  lemma TurnsGoOn(s: State, c: Choice)
    requires s.point.FailPoint? || s.point.OpenPoint? || NeedsConnection(s.point)
    ensures var p := WorkStep(s, c).point; !p.Closing? && !p.Discarding? && !p.Stopped?
  {
    hide Batches, Background, DrainCount, Ids, FirstAttempts;
    if s.point.BackgroundPoint? {
      assert Background(s.flags, c).point in {Top, SelectPoint};
    }
  }

  lemma WorkEndsJob(s: State, c: Choice)
    requires EndedItsJob(s)
    ensures EndedItsJob(WorkStep(s, c))
  {
    if s.point.FailPoint? || s.point.OpenPoint? || NeedsConnection(s.point) {
      hide WorkStep;
      TurnsGoOn(s, c);
    } else {
      hide Batches;
    }
  }

  /** A stopped worker has ended its maintenance job too. */
  lemma {:induction false} StoppedHasNoJob(steps: seq<Step>)
    ensures Run(steps).point in {Closing, Discarding, Stopped} ==> Run(steps).flags.maintenance == NoJob
  {
    if steps != [] {
      var s, step := Run(steps[..|steps| - 1]), steps[|steps| - 1];
      StoppedHasNoJob(steps[..|steps| - 1]);
      hide WorkStep;
      if step.Work? {
        WorkEndsJob(s, step.choice);
      }
    }
  }
}
