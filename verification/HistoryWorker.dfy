/**
 The history worker's loop interleaved with publishers, one lock-held section at a time.
 The worker retries failed batches, drops them after their last attempt, and gives way to
 size-cap work; persisted batches still come out in publish order, none is attempted more
 than three times, every offered batch is accounted for exactly once, and the queue's
 counters say exactly what the queue and the worker hold.
 */
module HistoryWorker {
  import opened HistoryQueue

  const MAX_BATCH_WRITE_ATTEMPTS: nat := 3

  datatype Attempted = Attempted(batch: Batch, attempts: nat)

  datatype Maintenance = NoJob | Job(enforcingCap: bool)

  /** Where the worker stands between two lock-held sections. */
  datatype Point =
    | Top
    | FailPoint
    | OpenPoint
    | RetryPoint
    | Retrying(entry: Attempted)
    | BackgroundPoint
    | SelectPoint
    | Draining(first: Batch)
    | Persisting(batches: seq<Batch>)
    | Releasing(rest: seq<Batch>, retried: bool)
    | Closing
    | Discarding
    | Stopped

  /** The loop's own flags; `cap` says whether size-cap work is pending. */
  datatype Flags = Flags(cap: bool, maintenance: Maintenance, connected: bool, backgroundTurn: bool)

  /** Where every offered batch that is no longer pending went. */
  datatype Books = Books(offered: seq<Batch>, persisted: seq<Batch>, dropped: seq<Batch>, refused: seq<Batch>)

  /** `tries` counts the persist calls each batch id has been part of. */
  datatype State = State(
    queue: Queue,
    retry: seq<Attempted>,
    point: Point,
    flags: Flags,
    books: Books,
    tries: multiset<nat>)

  datatype CapResult = CapDone | CapPending | CapFailed
  datatype JobResult = JobDone | JobContinues(enforcingCap: bool) | JobDelayed | JobFailed

  /** What the database, the clock and the callers decide for one worker step. */
  datatype Choice = Choice(
    failControls: bool, opens: bool, persists: bool, cancelled: bool, due: bool,
    capResult: CapResult, jobResult: JobResult, controlFails: bool, startsJob: bool)

  datatype Step =
    | Offer(bytes: nat, oversized: bool)
    | OfferControl
    | Close
    | Work(choice: Choice)

  function Initial(): State {
    State(EMPTY_QUEUE, [], Top, Flags(false, NoJob, false, false), Books([], [], [], []), multiset{})
  }

  function RetryBatches(retry: seq<Attempted>): (bs: seq<Batch>)
    ensures |bs| == |retry|
  {
    if retry == [] then [] else [retry[0].batch] + RetryBatches(retry[1..])
  }

  function FirstAttempts(batches: seq<Batch>): (entries: seq<Attempted>)
    ensures RetryBatches(entries) == batches
    ensures forall e | e in entries :: e.attempts == 1 && e.batch in batches
  {
    if batches == [] then []
    else
      var rest := FirstAttempts(batches[1..]);
      assert ([Attempted(batches[0], 1)] + rest)[1..] == rest;
      [Attempted(batches[0], 1)] + rest
  }

  lemma {:induction false} RetryBatchAt(retry: seq<Attempted>, i: nat)
    requires i < |retry|
    ensures RetryBatches(retry)[i] == retry[i].batch
  {
    if i > 0 {
      RetryBatchAt(retry[1..], i - 1);
    }
  }

  /** The batches the worker holds: what it took out of the queue and has not released. */
  function Owned(point: Point, retry: seq<Attempted>): seq<Batch> {
    match point
    case Retrying(entry) => [entry.batch] + RetryBatches(retry)
    case Draining(first) => RetryBatches(retry) + [first]
    case Persisting(batches) => RetryBatches(retry) + batches
    case Releasing(rest, _) => rest + RetryBatches(retry)
    case _ => RetryBatches(retry)
  }

  /** The batches the worker holds that are not yet committed, oldest first. */
  function Uncommitted(point: Point, retry: seq<Attempted>): seq<Batch> {
    if point.Releasing? then RetryBatches(retry) else Owned(point, retry)
  }

  /** Everything the worker or the queue holds; this is what the counters count. */
  function Pending(s: State): seq<Batch> {
    Owned(s.point, s.retry) + Batches(s.queue.commands)
  }

  /** Everything still to be written, in the order it will come out. */
  function Unwritten(s: State): seq<Batch> {
    Uncommitted(s.point, s.retry) + Batches(s.queue.commands)
  }

  function Ids(batches: seq<Batch>): set<nat> {
    set b | b in batches :: b.id
  }

  // ---------------------------------------------------------------------------
  // Steps
  // ---------------------------------------------------------------------------

  /** What the books say of an offer that evicted `evicted`. */
  function Offered(k: Books, b: Batch, evicted: seq<Batch>, accepted: bool): Books {
    Books(k.offered + [b], k.persisted, k.dropped + evicted + if accepted then [] else [b], k.refused)
  }

  function OfferBatch(s: State, bytes: nat, oversized: bool): State {
    var b, k := Batch(|s.books.offered|, bytes), s.books;
    if oversized || bytes > MAX_HISTORY_QUEUE_BYTES then
      s.(books := Books(k.offered + [b], k.persisted, k.dropped + [b], k.refused))
    else if s.queue.closed then
      s.(books := Books(k.offered + [b], k.persisted, k.dropped, k.refused + [b]))
    else
      var a := s.queue.Pushed(b);
      s.(queue := a.queue, books := Offered(k, b, a.evicted, a.accepted))
  }

  function Persisted(k: Books, done: seq<Batch>): Books {
    Books(k.offered, k.persisted + done, k.dropped, k.refused)
  }

  function Dropped(k: Books, lost: seq<Batch>): Books {
    Books(k.offered, k.persisted, k.dropped + lost, k.refused)
  }

  function AtTop(s: State): State {
    if s.queue.closed then s.(point := Closing, flags := s.flags.(maintenance := NoJob))
    else if s.flags.connected then s.(point := RetryPoint)
    else s.(point := FailPoint)
  }

  function AtFailPoint(s: State, c: Choice): State {
    s.(queue := if c.failControls then s.queue.WithoutControls() else s.queue, point := OpenPoint)
  }

  function AtOpenPoint(s: State, c: Choice): State {
    if c.opens then s.(point := RetryPoint, flags := Flags(true, s.flags.maintenance, true, true))
    else s.(point := Top)
  }

  function AtRetryPoint(s: State): State {
    if s.retry == [] then s.(point := BackgroundPoint)
    else
      s.(retry := s.retry[1..], point := Retrying(s.retry[0]), tries := s.tries + multiset{s.retry[0].batch.id})
  }

  function AtRetrying(s: State, c: Choice): State
    requires s.point.Retrying?
  {
    var e, f := s.point.entry, s.flags;
    if c.persists then
      s.(point := Releasing([e.batch], true), books := Persisted(s.books, [e.batch]))
    else if e.attempts + 1 < MAX_BATCH_WRITE_ATTEMPTS then
      s.(point := Top, retry := [Attempted(e.batch, e.attempts + 1)] + s.retry, flags := f.(connected := false))
    else
      s.(point := Top, queue := s.queue.Freed(e.batch), books := Dropped(s.books, [e.batch]),
         flags := f.(connected := false))
  }

  datatype Turn = Turn(flags: Flags, point: Point)

  /** The maintenance job a turn finds: none after a cancellation, a new one when it is due. */
  function JobFound(f: Flags, c: Choice): Maintenance {
    var kept := if c.cancelled then NoJob else f.maintenance;
    if kept.NoJob? && c.due then Job(false) else kept
  }

  /** A job that falls due makes the turn a background one. */
  predicate TakesTurn(f: Flags, c: Choice) {
    f.backgroundTurn || (c.due && (c.cancelled || f.maintenance.NoJob?))
  }

  /**
   One background turn: cap work goes before a maintenance job, a failure ends the connection
   and keeps the turn for the next one, and any other work gives commands the next turn.
   */
  function Background(f: Flags, c: Choice): (t: Turn)
    ensures t.point == Top || t.point == SelectPoint
    ensures f.cap && f.backgroundTurn && t.point == SelectPoint ==> t.flags.cap
    ensures !TakesTurn(f, c) ==> t == Turn(Flags(f.cap, JobFound(f, c), f.connected, false), SelectPoint)
    ensures TakesTurn(f, c) && f.cap ==>
      && (t.point == SelectPoint <==> c.capResult == CapPending) && (t.flags.cap <==> c.capResult != CapDone)
      && (t.flags.connected <==> f.connected && c.capResult != CapFailed)
      && (t.flags.backgroundTurn <==> c.capResult == CapFailed) && t.flags.maintenance == JobFound(f, c)
    ensures TakesTurn(f, c) && !f.cap && JobFound(f, c).Job? ==>
      && (t.point == SelectPoint <==> c.jobResult == JobDelayed) && !t.flags.cap
      && (t.flags.connected <==> f.connected && c.jobResult != JobFailed)
      && (t.flags.backgroundTurn <==> c.jobResult == JobFailed)
      && t.flags.maintenance == (if c.jobResult in {JobDone, JobFailed} then NoJob
                                 else if c.jobResult.JobContinues? then Job(c.jobResult.enforcingCap)
                                 else JobFound(f, c))
    ensures TakesTurn(f, c) && !f.cap && JobFound(f, c).NoJob? ==>
      t == Turn(Flags(false, NoJob, f.connected, true), SelectPoint)
  {
    var job := if c.cancelled then NoJob else f.maintenance;
    var started := job.NoJob? && c.due;
    var job' := if started then Job(false) else job;
    if !f.backgroundTurn && !started then Turn(Flags(f.cap, job', f.connected, false), SelectPoint)
    else if f.cap then
      match c.capResult
      case CapDone => Turn(Flags(false, job', f.connected, false), Top)
      case CapPending => Turn(Flags(true, job', f.connected, false), SelectPoint)
      case CapFailed => Turn(Flags(true, job', false, true), Top)
    else if job'.Job? then
      match c.jobResult
      case JobDone => Turn(Flags(false, NoJob, f.connected, false), Top)
      case JobContinues(e) => Turn(Flags(false, Job(e), f.connected, false), Top)
      case JobDelayed => Turn(Flags(false, job', f.connected, false), SelectPoint)
      case JobFailed => Turn(Flags(false, NoJob, false, true), Top)
    else Turn(Flags(false, job', f.connected, true), SelectPoint)
  }

  predicate CapPendingIn(f: Flags) {
    f.cap || f.maintenance == Job(true)
  }

  /** While cap work is pending only control commands are taken. */
  function AtSelect(s: State, c: Choice): State {
    var f, commands := s.flags, s.queue.commands;
    if commands == [] || (CapPendingIn(f) && commands[0].BatchCommand?) then
      s.(point := Top, flags := f.(backgroundTurn := f.backgroundTurn || f.cap || f.maintenance.Job?))
    else if commands[0].BatchCommand? then
      s.(queue := s.queue.Popped(), point := Draining(commands[0].batch), flags := f.(backgroundTurn := true))
    else
      var job := if c.startsJob && f.maintenance.NoJob? then Job(false) else f.maintenance;
      s.(queue := s.queue.Popped(), point := Top, flags := Flags(f.cap, job, f.connected && !c.controlFails, true))
  }

  function AtDraining(s: State): State
    requires s.point.Draining?
  {
    var n := DrainCount(s.queue.commands, [s.point.first]);
    var batches := [s.point.first] + Batches(s.queue.commands[..n]);
    s.(queue := s.queue.Drained(n), point := Persisting(batches), tries := s.tries + multiset(Ids(batches)))
  }

  function AtPersisting(s: State, c: Choice): State
    requires s.point.Persisting?
  {
    if c.persists then
      s.(point := Releasing(s.point.batches, false), books := Persisted(s.books, s.point.batches))
    else
      s.(point := Top, retry := s.retry + FirstAttempts(s.point.batches), flags := s.flags.(connected := false))
  }

  /**
   Committed batches are released one lock at a time. Then cap work is pending, and after a
   retry it comes first, so newer batches wait for the next retry.
   */
  function AtReleasing(s: State): State
    requires s.point.Releasing?
  {
    var rest, f := s.point.rest, s.flags;
    if rest != [] then
      s.(queue := s.queue.Freed(rest[0]), point := Releasing(rest[1..], s.point.retried))
    else if s.point.retried then
      s.(point := BackgroundPoint, flags := Flags(true, f.maintenance, f.connected, true))
    else
      s.(point := Top, flags := f.(cap := true))
  }

  /** A closed queue: give up the retries one by one, then the control commands. */
  function AtClosing(s: State): State {
    if s.retry == [] then s.(queue := s.queue.WithoutControls(), point := Discarding)
    else
      var b := s.retry[0].batch;
      s.(queue := s.queue.Freed(b), retry := s.retry[1..], books := Dropped(s.books, [b]))
  }

  function AtDiscarding(s: State): State {
    s.(queue := s.queue.Discarded(), point := Stopped,
       books := Dropped(s.books, if s.queue.closed then Batches(s.queue.commands) else []))
  }

  function WorkStep(s: State, c: Choice): State {
    match s.point
    case Top => AtTop(s)
    case FailPoint => AtFailPoint(s, c)
    case OpenPoint => AtOpenPoint(s, c)
    case RetryPoint => AtRetryPoint(s)
    case Retrying(_) => AtRetrying(s, c)
    case BackgroundPoint => s.(point := Background(s.flags, c).point, flags := Background(s.flags, c).flags)
    case SelectPoint => AtSelect(s, c)
    case Draining(_) => AtDraining(s)
    case Persisting(_) => AtPersisting(s, c)
    case Releasing(_, _) => AtReleasing(s)
    case Closing => AtClosing(s)
    case Discarding => AtDiscarding(s)
    case Stopped => s
  }

  function Apply(s: State, step: Step): State {
    match step
    case Offer(bytes, oversized) => OfferBatch(s, bytes, oversized)
    case OfferControl => s.(queue := s.queue.WithControl())
    case Close => s.(queue := s.queue.(closed := true))
    case Work(c) => WorkStep(s, c)
  }

  function Run(steps: seq<Step>): State {
    if steps == [] then Initial() else Apply(Run(steps[..|steps| - 1]), steps[|steps| - 1])
  }

  // ---------------------------------------------------------------------------
  // The invariant
  // ---------------------------------------------------------------------------

  /** Offered batches are numbered in the order they were offered. */
  ghost predicate Numbered(offered: seq<Batch>) {
    forall i | 0 <= i < |offered| :: offered[i].id == i
  }

  /** The ids increase along the sequence and stay below the bound. */
  ghost predicate Increasing(bs: seq<Batch>, bound: nat) {
    bs == [] || (bs[|bs| - 1].id < bound && Increasing(bs[..|bs| - 1], bs[|bs| - 1].id))
  }

  /** Every offered batch is in exactly one place. */
  ghost predicate Conserved(k: Books, unwritten: seq<Batch>) {
    multiset(k.offered) == multiset(k.persisted) + multiset(unwritten) + multiset(k.dropped) + multiset(k.refused)
  }

  ghost predicate Placed(k: Books, unwritten: seq<Batch>) {
    && Numbered(k.offered)
    && Increasing(k.persisted + unwritten, |k.offered|)
    && Conserved(k, unwritten)
  }

  /** What is being released is the last that was committed. */
  ghost predicate Committed(point: Point, persisted: seq<Batch>) {
    point.Releasing? ==>
      |point.rest| <= |persisted| && persisted[|persisted| - |point.rest|..] == point.rest
  }

  /** A batch leaves the queue only when nothing older waits for a retry. */
  ghost predicate RetryGate(s: State) {
    match s.point
    case Draining(_) => s.retry == []
    case Persisting(_) => s.retry == []
    case Releasing(_, retried) => !retried ==> s.retry == []
    case BackgroundPoint => s.retry != [] ==> s.flags.cap && s.flags.backgroundTurn
    case SelectPoint => s.retry != [] ==> s.flags.cap
    case Closing => s.queue.closed
    case Discarding => s.queue.closed && s.retry == []
    case Stopped => s.queue.closed && s.retry == [] && s.queue.commands == []
    case _ => true
  }

  /** How often the batches in the worker's hands have been tried. */
  ghost predicate Counted(point: Point, tries: multiset<nat>) {
    match point
    case Retrying(e) => 1 <= e.attempts <= 2 && tries[e.batch.id] == e.attempts + 1
    case Draining(first) => tries[first.id] == 0
    case Persisting(batches) => forall b | b in batches :: tries[b.id] == 1
    case _ => true
  }

  ghost predicate Untried(commands: seq<Command>, tries: multiset<nat>) {
    forall b | b in Batches(commands) :: tries[b.id] == 0
  }

  ghost predicate Waiting(retry: seq<Attempted>, tries: multiset<nat>) {
    forall e | e in retry :: 1 <= e.attempts <= 2 && tries[e.batch.id] == e.attempts
  }

  ghost predicate Limited(tries: multiset<nat>, offered: nat) {
    && (forall id: nat :: tries[id] <= MAX_BATCH_WRITE_ATTEMPTS)
    && (forall id: nat | id >= offered :: tries[id] == 0)
  }

  ghost predicate Attempts(s: State) {
    && Limited(s.tries, |s.books.offered|) && Untried(s.queue.commands, s.tries)
    && Waiting(s.retry, s.tries) && Counted(s.point, s.tries)
  }

  ghost predicate Inv(s: State) {
    && Placed(s.books, Unwritten(s)) && Committed(s.point, s.books.persisted)
    && RetryGate(s) && Attempts(s) && Exact(s.queue, Owned(s.point, s.retry))
  }

  // ---------------------------------------------------------------------------
  // Order
  // ---------------------------------------------------------------------------

  lemma {:induction false} IncreasingAt(bs: seq<Batch>, bound: nat, i: nat, j: nat)
    requires Increasing(bs, bound) && i < |bs|
    ensures bs[i].id < bound
    ensures i < j < |bs| ==> bs[i].id < bs[j].id
    decreases |bs|
  {
    var n := |bs| - 1;
    if i < n {
      IncreasingAt(bs[..n], bs[n].id, i, if j < n then j else i);
    }
  }

  lemma {:induction false} IncreasingPrefix(head: seq<Batch>, lost: seq<Batch>, bound: nat)
    requires Increasing(head + lost, bound)
    ensures Increasing(head, bound)
    decreases |lost|
  {
    if lost == [] {
      assert head + lost == head;
    } else {
      var n := |lost| - 1;
      assert (head + lost)[..|head + lost| - 1] == head + lost[..n];
      IncreasingPrefix(head, lost[..n], lost[n].id);
      IncreasingWiden(head, lost[n].id, bound);
    }
  }

  lemma IncreasingWiden(bs: seq<Batch>, bound: nat, wider: nat)
    requires Increasing(bs, bound) && bound <= wider
    ensures Increasing(bs, wider)
  {
  }

  lemma {:induction false} RemovalKeepsOrder(head: seq<Batch>, lost: seq<Batch>, back: seq<Batch>, bound: nat)
    requires Increasing(head + lost + back, bound)
    ensures Increasing(head + back, bound)
    decreases |back|
  {
    if back == [] {
      assert head + lost + back == head + lost && head + back == head;
      IncreasingPrefix(head, lost, bound);
    } else {
      var n := |back| - 1;
      var all, kept := head + lost + back, head + back;
      assert all[..|all| - 1] == head + lost + back[..n] && kept[..|kept| - 1] == head + back[..n];
      RemovalKeepsOrder(head, lost, back[..n], back[n].id);
    }
  }

  // ---------------------------------------------------------------------------
  // Moves between the books
  // ---------------------------------------------------------------------------

  lemma MovesKeepOrder(persisted: seq<Batch>, done: seq<Batch>, front: seq<Batch>, lost: seq<Batch>,
      back: seq<Batch>, bound: nat)
    requires Increasing(persisted + (done + front + lost + back), bound)
    ensures Increasing(persisted + done + (front + back), bound)
  {
    hide Increasing;
    var head := persisted + done + front;
    assert persisted + (done + front + lost + back) == head + lost + back;
    assert persisted + done + (front + back) == head + back;
    RemovalKeepsOrder(head, lost, back, bound);
  }

  /** `done` leaves at the front as persisted and `lost` leaves anywhere as dropped. */
  lemma MovesKeepPlaced(k: Books, done: seq<Batch>, front: seq<Batch>, lost: seq<Batch>, back: seq<Batch>)
    requires Placed(k, done + front + lost + back)
    ensures Placed(Dropped(Persisted(k, done), lost), front + back)
  {
    hide Increasing;
    MovesKeepOrder(k.persisted, done, front, lost, back, |k.offered|);
    assert multiset(done + front + lost + back) == multiset(done) + multiset(front) + multiset(lost) + multiset(back);
  }

  lemma PersistKeepsPlaced(k: Books, done: seq<Batch>, back: seq<Batch>)
    requires Placed(k, done + back)
    ensures Placed(Persisted(k, done), back)
  {
    hide Placed;
    assert done + back == done + [] + [] + back && [] + back == back;
    MovesKeepPlaced(k, done, [], [], back);
    assert Dropped(Persisted(k, done), []) == Persisted(k, done);
  }

  lemma DropKeepsPlaced(k: Books, front: seq<Batch>, lost: seq<Batch>, back: seq<Batch>)
    requires Placed(k, front + lost + back)
    ensures Placed(Dropped(k, lost), front + back)
  {
    hide Placed;
    assert front + lost + back == [] + front + lost + back;
    MovesKeepPlaced(k, [], front, lost, back);
    assert Persisted(k, []) == k;
  }

  lemma AppendKeepsOrder(flow: seq<Batch>, b: Batch)
    requires Increasing(flow, b.id)
    ensures Increasing(flow + [b], b.id + 1)
  {
    assert (flow + [b])[..|flow|] == flow;
  }

  lemma AppendKeepsPlaced(k: Books, unwritten: seq<Batch>, b: Batch)
    requires Placed(k, unwritten) && b.id == |k.offered|
    ensures Placed(Books(k.offered + [b], k.persisted, k.dropped, k.refused), unwritten + [b])
  {
    hide Increasing;
    assert k.persisted + (unwritten + [b]) == k.persisted + unwritten + [b];
    AppendKeepsOrder(k.persisted + unwritten, b);
  }

  lemma LostOfferKeepsPlaced(k: Books, unwritten: seq<Batch>, b: Batch)
    requires Placed(k, unwritten) && b.id == |k.offered|
    ensures Placed(Books(k.offered + [b], k.persisted, k.dropped + [b], k.refused), unwritten)
    ensures Placed(Books(k.offered + [b], k.persisted, k.dropped, k.refused + [b]), unwritten)
  {
    IncreasingWiden(k.persisted + unwritten, |k.offered|, |k.offered| + 1);
  }

  // ---------------------------------------------------------------------------
  // Placement is kept
  // ---------------------------------------------------------------------------

  /** What an offer does to the queue, in terms of the batches alone. */
  lemma PushSplits(commands: seq<Command>, owned: seq<Batch>, b: Batch) returns (evicted: seq<Batch>, left: seq<Batch>)
    ensures Batches(commands) == evicted + left
    ensures var a := Push(commands, owned, b);
      a.evicted == evicted && Batches(a.commands) == (if a.accepted then left + [b] else left)
  {
    var a := Evict(commands, owned, b);
    EvictSplits(commands, owned, b);
    evicted, left := a.evicted, Batches(a.commands);
    BatchesAppend(a.commands, [BatchCommand(b)]);
    SingletonBytes(b);
  }

  lemma AdmissionKeepsPlaced(k: Books, front: seq<Batch>, evicted: seq<Batch>, left: seq<Batch>, b: Batch,
      accepted: bool)
    requires Placed(k, front + (evicted + left)) && b.id == |k.offered|
    ensures Placed(Offered(k, b, evicted, accepted), front + if accepted then left + [b] else left)
  {
    hide Placed;
    assert front + (evicted + left) == front + evicted + left;
    DropKeepsPlaced(k, front, evicted, left);
    if accepted {
      AppendKeepsPlaced(Dropped(k, evicted), front + left, b);
      assert front + left + [b] == front + (left + [b]) && k.dropped + evicted + [] == k.dropped + evicted;
    } else {
      LostOfferKeepsPlaced(Dropped(k, evicted), front + left, b);
    }
  }

  lemma OfferKeepsPlaced(s: State, bytes: nat, oversized: bool)
    requires Placed(s.books, Unwritten(s)) && Exact(s.queue, Owned(s.point, s.retry))
    ensures var s' := OfferBatch(s, bytes, oversized); Placed(s'.books, Unwritten(s'))
  {
    hide Batches, Push, Exact;
    hide Placed;
    var b := Batch(|s.books.offered|, bytes);
    if oversized || bytes > MAX_HISTORY_QUEUE_BYTES || s.queue.closed {
      LostOfferKeepsPlaced(s.books, Unwritten(s), b);
    } else {
      var owned := Owned(s.point, s.retry);
      PushedIsPush(s.queue, owned, b);
      var evicted, left := PushSplits(s.queue.commands, owned, b);
      AdmissionKeepsPlaced(s.books, Uncommitted(s.point, s.retry), evicted, left, b, s.queue.Pushed(b).accepted);
    }
  }

  lemma OpeningKeepsUnwritten(s: State, c: Choice)
    requires s.point in {Top, FailPoint, OpenPoint, BackgroundPoint}
    ensures Unwritten(WorkStep(s, c)) == Unwritten(s) && WorkStep(s, c).books == s.books
  {
    hide Batches, Background;
  }

  lemma RetryPointKeepsUnwritten(s: State)
    requires s.point == RetryPoint
    ensures Unwritten(AtRetryPoint(s)) == Unwritten(s)
  {
    hide Batches;
  }

  lemma RetryingKeepsPlaced(s: State, c: Choice)
    requires Placed(s.books, Unwritten(s)) && s.point.Retrying?
    ensures var s' := AtRetrying(s, c); Placed(s'.books, Unwritten(s'))
  {
    hide Placed, Batches;
    var s', e := AtRetrying(s, c), s.point.entry;
    var rest := RetryBatches(s.retry) + Batches(s.queue.commands);
    assert Unwritten(s) == [e.batch] + rest;
    if c.persists {
      PersistKeepsPlaced(s.books, [e.batch], rest);
    } else if e.attempts + 1 < MAX_BATCH_WRITE_ATTEMPTS {
      assert s'.retry[1..] == s.retry;
      assert Unwritten(s') == Unwritten(s);
    } else {
      assert [e.batch] + rest == [] + [e.batch] + rest && [] + rest == rest;
      DropKeepsPlaced(s.books, [], [e.batch], rest);
    }
  }

  lemma SelectKeepsUnwritten(s: State, c: Choice)
    requires s.point == SelectPoint && RetryGate(s)
    ensures Unwritten(AtSelect(s, c)) == Unwritten(s)
  {
    hide Batches, Bytes;
    var commands := s.queue.commands;
    if commands != [] {
      FrontCommand(commands);
      if commands[0].BatchCommand? && s.retry == [] {
        assert [] + [commands[0].batch] + Batches(commands[1..]) == [] + Batches(commands);
      }
    }
  }

  lemma DrainingKeepsUnwritten(s: State)
    requires s.point.Draining? && s.retry == []
    ensures Unwritten(AtDraining(s)) == Unwritten(s)
  {
    hide Batches, DrainCount;
    var commands := s.queue.commands;
    var n, first := DrainCount(commands, [s.point.first]), [s.point.first];
    PrefixBatches(commands, n);
    DrainedCommands(s.queue, n);
    var taken, left := Batches(commands[..n]), Batches(commands[n..]);
    assert [] + first + (taken + left) == [] + (first + taken) + left;
  }

  lemma PersistingKeepsPlaced(s: State, c: Choice)
    requires Placed(s.books, Unwritten(s)) && s.point.Persisting? && s.retry == []
    ensures var s' := AtPersisting(s, c); Placed(s'.books, Unwritten(s'))
  {
    hide Placed, Batches, FirstAttempts;
    var s', batches, queued := AtPersisting(s, c), s.point.batches, Batches(s.queue.commands);
    assert [] + batches == batches;
    if c.persists {
      PersistKeepsPlaced(s.books, batches, queued);
      assert [] + queued == queued;
    } else {
      assert s'.retry == FirstAttempts(batches);
    }
  }

  lemma ClosingKeepsPlaced(s: State)
    requires Placed(s.books, Unwritten(s)) && s.point == Closing
    ensures var s' := AtClosing(s); Placed(s'.books, Unwritten(s'))
  {
    hide Placed, Batches;
    if s.retry != [] {
      var b, rest := s.retry[0].batch, RetryBatches(s.retry[1..]) + Batches(s.queue.commands);
      assert Unwritten(s) == [] + [b] + rest && Unwritten(AtClosing(s)) == [] + rest;
      DropKeepsPlaced(s.books, [], [b], rest);
    }
  }

  lemma DiscardingKeepsPlaced(s: State)
    requires Placed(s.books, Unwritten(s)) && s.point == Discarding && s.queue.closed && s.retry == []
    ensures var s' := AtDiscarding(s); Placed(s'.books, Unwritten(s'))
  {
    hide Placed;
    var lost := Batches(s.queue.commands);
    assert Unwritten(s) == [] + lost + [] && Unwritten(AtDiscarding(s)) == [] + [];
    DropKeepsPlaced(s.books, [], lost, []);
  }

  lemma WorkKeepsPlaced(s: State, c: Choice)
    requires Placed(s.books, Unwritten(s)) && RetryGate(s)
    ensures var s' := WorkStep(s, c); Placed(s'.books, Unwritten(s'))
  {
    hide Placed;
    match s.point
    case RetryPoint => RetryPointKeepsUnwritten(s);
    case Retrying(_) => RetryingKeepsPlaced(s, c);
    case SelectPoint => SelectKeepsUnwritten(s, c);
    case Draining(_) => DrainingKeepsUnwritten(s);
    case Persisting(_) => PersistingKeepsPlaced(s, c);
    case Releasing(_, _) => assert Unwritten(AtReleasing(s)) == Unwritten(s);
    case Closing => ClosingKeepsPlaced(s);
    case Discarding => DiscardingKeepsPlaced(s);
    case Stopped =>
    case _ => OpeningKeepsUnwritten(s, c);
  }

  // ---------------------------------------------------------------------------
  // The counters stay exact
  // ---------------------------------------------------------------------------

  /** Releasing the first of the batches the worker holds. */
  lemma FreedFront(q: Queue, b: Batch, rest: seq<Batch>)
    requires Exact(q, [b] + rest)
    ensures Exact(q.Freed(b), rest)
  {
    hide Exact;
    FreedIsExact(q, [b] + rest, b);
    assert Released([b] + rest, b) == rest;
  }

  lemma OfferKeepsExact(s: State, bytes: nat, oversized: bool)
    requires Exact(s.queue, Owned(s.point, s.retry))
    ensures Exact(OfferBatch(s, bytes, oversized).queue, Owned(s.point, s.retry))
  {
    hide Exact, Push;
    PushedIsPush(s.queue, Owned(s.point, s.retry), Batch(|s.books.offered|, bytes));
  }

  lemma RetryingKeepsExact(s: State, c: Choice)
    requires Exact(s.queue, Owned(s.point, s.retry)) && s.point.Retrying?
    ensures var s' := AtRetrying(s, c); Exact(s'.queue, Owned(s'.point, s'.retry))
  {
    hide Exact;
    var s', e := AtRetrying(s, c), s.point.entry;
    if c.persists {
    } else if e.attempts + 1 < MAX_BATCH_WRITE_ATTEMPTS {
      assert s'.retry[1..] == s.retry;
    } else {
      FreedFront(s.queue, e.batch, RetryBatches(s.retry));
    }
  }

  lemma SelectKeepsExact(s: State, c: Choice)
    requires Exact(s.queue, Owned(s.point, s.retry)) && s.point == SelectPoint
    ensures var s' := AtSelect(s, c); Exact(s'.queue, Owned(s'.point, s'.retry))
  {
    hide Exact;
    var owned := RetryBatches(s.retry);
    if s.queue.commands != [] {
      PoppedIsExact(s.queue, owned);
      assert owned + [] == owned;
    }
  }

  lemma DrainingKeepsExact(s: State)
    requires Exact(s.queue, Owned(s.point, s.retry)) && s.point.Draining?
    ensures var s' := AtDraining(s); Exact(s'.queue, Owned(s'.point, s'.retry))
  {
    hide Exact, Batches, DrainCount;
    var n, owned := DrainCount(s.queue.commands, [s.point.first]), RetryBatches(s.retry);
    DrainedIsExact(s.queue, owned + [s.point.first], n);
    Associative(owned, [s.point.first], Batches(s.queue.commands[..n]));
  }

  lemma PersistingKeepsExact(s: State, c: Choice)
    requires Exact(s.queue, Owned(s.point, s.retry)) && s.point.Persisting? && s.retry == []
    ensures var s' := AtPersisting(s, c); Exact(s'.queue, Owned(s'.point, s'.retry))
  {
    hide Exact, Batches, FirstAttempts;
    var s', batches := AtPersisting(s, c), s.point.batches;
    assert Owned(s.point, s.retry) == batches;
    if c.persists {
      assert Owned(s'.point, s'.retry) == batches + [] == batches;
    } else {
      assert s'.retry == FirstAttempts(batches);
    }
  }

  lemma ReleasingKeepsExact(s: State)
    requires Exact(s.queue, Owned(s.point, s.retry)) && s.point.Releasing?
    ensures var s' := AtReleasing(s); Exact(s'.queue, Owned(s'.point, s'.retry))
  {
    hide Exact;
    var rest, held := s.point.rest, RetryBatches(s.retry);
    if rest == [] {
      assert rest + held == held;
    } else {
      assert rest + held == [rest[0]] + (rest[1..] + held);
      FreedFront(s.queue, rest[0], rest[1..] + held);
    }
  }

  lemma ClosingKeepsExact(s: State)
    requires Exact(s.queue, Owned(s.point, s.retry)) && s.point == Closing
    ensures var s' := AtClosing(s); Exact(s'.queue, Owned(s'.point, s'.retry))
  {
    hide Exact;
    if s.retry == [] {
      WithoutControlsIsExact(s.queue, []);
    } else {
      FreedFront(s.queue, s.retry[0].batch, RetryBatches(s.retry[1..]));
    }
  }

  lemma WorkKeepsExact(s: State, c: Choice)
    requires Exact(s.queue, Owned(s.point, s.retry)) && RetryGate(s)
    ensures var s' := WorkStep(s, c); Exact(s'.queue, Owned(s'.point, s'.retry))
  {
    hide Exact, Background;
    match s.point
    case FailPoint => WithoutControlsIsExact(s.queue, RetryBatches(s.retry));
    case Retrying(_) => RetryingKeepsExact(s, c);
    case BackgroundPoint => assert Background(s.flags, c).point in {Top, SelectPoint};
    case SelectPoint => SelectKeepsExact(s, c);
    case Draining(_) => DrainingKeepsExact(s);
    case Persisting(_) => PersistingKeepsExact(s, c);
    case Releasing(_, _) => ReleasingKeepsExact(s);
    case Closing => ClosingKeepsExact(s);
    case Discarding => DiscardedIsExact(s.queue, []);
    case _ =>
  }

  lemma StepKeepsExact(s: State, step: Step)
    requires Exact(s.queue, Owned(s.point, s.retry)) && RetryGate(s)
    ensures var s' := Apply(s, step); Exact(s'.queue, Owned(s'.point, s'.retry))
  {
    match step
    case Offer(bytes, oversized) => OfferKeepsExact(s, bytes, oversized);
    case OfferControl => WithControlIsExact(s.queue, Owned(s.point, s.retry));
    case Close =>
    case Work(c) => WorkKeepsExact(s, c);
  }

  /** A release takes the oldest of what was last committed. */
  lemma StepKeepsCommitted(s: State, step: Step)
    requires Committed(s.point, s.books.persisted)
    ensures Committed(Apply(s, step).point, Apply(s, step).books.persisted)
  {
    hide Batches, Background, DrainCount;
    if step.Work? && s.point.Releasing? {
      var persisted, rest := s.books.persisted, s.point.rest;
      if rest != [] {
        assert persisted[|persisted| - |rest|..][1..] == persisted[|persisted| - |rest[1..]|..];
      }
    } else if step.Work? && s.point.BackgroundPoint? {
      assert Background(s.flags, step.choice).point in {Top, SelectPoint};
    } else if step.Work? && (s.point.Retrying? || s.point.Persisting?) {
      var s' := WorkStep(s, step.choice);
      if s'.point.Releasing? {
        assert s'.books.persisted == s.books.persisted + s'.point.rest;
      }
    }
  }

  // ---------------------------------------------------------------------------
  // Attempts are counted
  // ---------------------------------------------------------------------------

  lemma OfferKeepsUntried(commands: seq<Command>, owned: seq<Batch>, b: Batch, tries: multiset<nat>)
    requires Untried(commands, tries) && tries[b.id] == 0
    ensures Untried(Push(commands, owned, b).commands, tries)
  {
    var a := Evict(commands, owned, b);
    EvictSplits(commands, owned, b);
    BatchesAppend(a.commands, [BatchCommand(b)]);
    SingletonBytes(b);
    assert forall x | x in Batches(a.commands) :: x in Batches(commands);
  }

  lemma OfferKeepsAttempts(s: State, bytes: nat, oversized: bool)
    requires Attempts(s) && Exact(s.queue, Owned(s.point, s.retry))
    ensures Attempts(OfferBatch(s, bytes, oversized))
  {
    var b, owned := Batch(|s.books.offered|, bytes), Owned(s.point, s.retry);
    PushedIsPush(s.queue, owned, b);
    OfferKeepsUntried(s.queue.commands, owned, b, s.tries);
  }

  /** The batch at the head of the retries is nowhere else. */
  lemma RetryIsUnique(persisted: seq<Batch>, retry: seq<Attempted>, queued: seq<Batch>, bound: nat)
    requires Increasing(persisted + (RetryBatches(retry) + queued), bound) && retry != []
    ensures forall e | e in retry[1..] :: e.batch.id != retry[0].batch.id
    ensures forall b | b in queued :: b.id != retry[0].batch.id
    ensures retry[0].batch.id < bound
  {
    var n, flow := |persisted|, persisted + (RetryBatches(retry) + queued);
    RetryBatchAt(retry, 0);
    assert flow[n] == retry[0].batch;
    IncreasingAt(flow, bound, n, n);
    forall e | e in retry[1..] ensures e.batch.id != retry[0].batch.id {
      var i :| 1 <= i < |retry| && retry[i] == e;
      RetryBatchAt(retry, i);
      assert flow[n + i] == e.batch;
      IncreasingAt(flow, bound, n, n + i);
    }
    forall b | b in queued ensures b.id != retry[0].batch.id {
      var j :| 0 <= j < |queued| && queued[j] == b;
      assert flow[n + |retry| + j] == b;
      IncreasingAt(flow, bound, n, n + |retry| + j);
    }
  }

  lemma RetryPointKeepsAttempts(s: State)
    requires Increasing(s.books.persisted + Unwritten(s), |s.books.offered|)
    requires Attempts(s) && s.point == RetryPoint
    ensures Attempts(AtRetryPoint(s))
  {
    if s.retry != [] {
      RetryIsUnique(s.books.persisted, s.retry, Batches(s.queue.commands), |s.books.offered|);
      var e := s.retry[0];
      assert e in s.retry;
      var tries := s.tries + multiset{e.batch.id};
      assert forall id: nat :: tries[id] == s.tries[id] + if id == e.batch.id then 1 else 0;
    }
  }

  lemma RetryingKeepsAttempts(s: State, c: Choice)
    requires Attempts(s) && s.point.Retrying?
    ensures Attempts(AtRetrying(s, c))
  {
  }

  lemma SelectKeepsAttempts(s: State, c: Choice)
    requires Attempts(s) && s.point == SelectPoint
    ensures Attempts(AtSelect(s, c))
  {
  }

  /** The batches of one transaction differ from every batch still queued. */
  lemma DrainedAreDistinct(persisted: seq<Batch>, batches: seq<Batch>, later: seq<Batch>, bound: nat)
    requires Increasing(persisted + (batches + later), bound)
    ensures forall b | b in later :: b.id !in Ids(batches)
    ensures forall b | b in batches :: b.id < bound
  {
    var n, flow := |persisted|, persisted + (batches + later);
    forall b, x | b in later && x in batches ensures x.id != b.id {
      var j :| 0 <= j < |later| && later[j] == b;
      var i :| 0 <= i < |batches| && batches[i] == x;
      assert flow[n + |batches| + j] == b && flow[n + i] == x;
      IncreasingAt(flow, bound, n + i, n + |batches| + j);
    }
    forall b | b in batches ensures b.id < bound {
      var i :| 0 <= i < |batches| && batches[i] == b;
      assert flow[n + i] == b;
      IncreasingAt(flow, bound, n + i, n + i);
    }
  }

  lemma DrainingKeepsAttempts(s: State)
    requires Increasing(s.books.persisted + Unwritten(s), |s.books.offered|)
    requires Attempts(s) && s.point.Draining? && s.retry == []
    ensures Attempts(AtDraining(s))
  {
    hide Increasing, Batches, DrainCount;
    var n := DrainCount(s.queue.commands, [s.point.first]);
    PrefixBatches(s.queue.commands, n);
    DrainedCommands(s.queue, n);
    var batches, later := [s.point.first] + Batches(s.queue.commands[..n]), Batches(s.queue.commands[n..]);
    assert Unwritten(s) == batches + later;
    DrainedAreDistinct(s.books.persisted, batches, later, |s.books.offered|);
    assert forall b | b in batches :: s.tries[b.id] == 0;
    TryOnce(s.tries, batches, later, |s.books.offered|);
  }

  lemma TryOnce(tries: multiset<nat>, batches: seq<Batch>, later: seq<Batch>, bound: nat)
    requires Limited(tries, bound) && forall b | b in batches :: b.id < bound && tries[b.id] == 0
    requires forall b | b in later :: b.id !in Ids(batches) && tries[b.id] == 0
    ensures var t := tries + multiset(Ids(batches));
      && Limited(t, bound) && (forall b | b in batches :: t[b.id] == 1) && (forall b | b in later :: t[b.id] == 0)
  {
    var t := tries + multiset(Ids(batches));
    assert forall id: nat :: t[id] == tries[id] + if id in Ids(batches) then 1 else 0;
  }

  lemma FirstAttemptsWait(batches: seq<Batch>, tries: multiset<nat>)
    requires forall b | b in batches :: tries[b.id] == 1
    ensures Waiting(FirstAttempts(batches), tries)
  {
  }

  lemma PersistingKeepsAttempts(s: State, c: Choice)
    requires Attempts(s) && s.point.Persisting? && s.retry == []
    ensures Attempts(AtPersisting(s, c))
  {
    hide Limited, Untried, Waiting, FirstAttempts;
    FirstAttemptsWait(s.point.batches, s.tries);
    assert [] + FirstAttempts(s.point.batches) == FirstAttempts(s.point.batches);
  }

  lemma ClosingKeepsAttempts(s: State)
    requires Attempts(s)
    ensures s.point == Closing ==> Attempts(AtClosing(s))
    ensures s.point == Discarding ==> Attempts(AtDiscarding(s))
  {
    hide Limited;
  }

  lemma OtherKeepsAttempts(s: State, c: Choice)
    requires s.point in {Top, FailPoint, OpenPoint, BackgroundPoint, Stopped} || s.point.Releasing?
    requires Attempts(s)
    ensures Attempts(WorkStep(s, c))
  {
    hide Limited, Waiting, Batches, Background;
    var s' := WorkStep(s, c);
    assert s'.retry == s.retry && s'.tries == s.tries && s'.books == s.books;
    assert Batches(s'.queue.commands) == Batches(s.queue.commands);
    if s.point.BackgroundPoint? {
      assert Background(s.flags, c).point in {Top, SelectPoint};
    }
  }

  lemma WorkKeepsAttempts(s: State, c: Choice)
    requires Increasing(s.books.persisted + Unwritten(s), |s.books.offered|)
    requires RetryGate(s) && Attempts(s)
    ensures Attempts(WorkStep(s, c))
  {
    hide Attempts, Increasing;
    match s.point
    case RetryPoint => RetryPointKeepsAttempts(s);
    case Retrying(_) => RetryingKeepsAttempts(s, c);
    case SelectPoint => SelectKeepsAttempts(s, c);
    case Draining(_) => DrainingKeepsAttempts(s);
    case Persisting(_) => PersistingKeepsAttempts(s, c);
    case Closing => ClosingKeepsAttempts(s);
    case Discarding => ClosingKeepsAttempts(s);
    case _ => OtherKeepsAttempts(s, c);
  }

  // ---------------------------------------------------------------------------
  // Every step and every run
  // ---------------------------------------------------------------------------

  lemma WorkKeepsGate(s: State, c: Choice)
    requires RetryGate(s)
    ensures RetryGate(WorkStep(s, c))
  {
  }

  lemma StepKeepsPlaced(s: State, step: Step)
    requires Placed(s.books, Unwritten(s)) && RetryGate(s) && Exact(s.queue, Owned(s.point, s.retry))
    ensures Placed(Apply(s, step).books, Unwritten(Apply(s, step)))
  {
    hide Placed, Exact;
    match step
    case Offer(bytes, oversized) => OfferKeepsPlaced(s, bytes, oversized);
    case OfferControl => ControlIsNoBatch(s.queue.commands);
    case Close =>
    case Work(c) => WorkKeepsPlaced(s, c);
  }

  lemma StepKeepsAttempts(s: State, step: Step)
    requires Increasing(s.books.persisted + Unwritten(s), |s.books.offered|)
    requires RetryGate(s) && Attempts(s) && Exact(s.queue, Owned(s.point, s.retry))
    ensures Attempts(Apply(s, step))
  {
    hide Exact;
    match step
    case Offer(bytes, oversized) => OfferKeepsAttempts(s, bytes, oversized);
    case OfferControl => ControlIsNoBatch(s.queue.commands);
    case Close =>
    case Work(c) => WorkKeepsAttempts(s, c);
  }

  lemma StepKeepsGate(s: State, step: Step)
    requires RetryGate(s)
    ensures RetryGate(Apply(s, step))
  {
    match step
    case Offer(bytes, oversized) =>
    case OfferControl =>
    case Close =>
    case Work(c) => WorkKeepsGate(s, c);
  }

  lemma ControlIsNoBatch(commands: seq<Command>)
    ensures Batches(commands + [Control]) == Batches(commands)
  {
    BatchesAppend(commands, [Control]);
    SingletonBytes(Batch(0, 0));
  }

  /** Every step of every thread keeps the invariant. */
  lemma {:induction false} StepKeepsInv(s: State, step: Step)
    requires Inv(s)
    ensures Inv(Apply(s, step))
  {
    hide Attempts, RetryGate, Apply, Unwritten, Owned, Exact, Committed, Increasing, Conserved, Numbered;
    assert Placed(Apply(s, step).books, Unwritten(Apply(s, step))) by {
      StepKeepsPlaced(s, step);
    }
    StepKeepsExact(s, step);
    StepKeepsCommitted(s, step);
    assert Attempts(Apply(s, step)) by {
      StepKeepsAttempts(s, step);
    }
    StepKeepsGate(s, step);
  }

  lemma {:induction false} RunsKeepInv(steps: seq<Step>)
    ensures Inv(Run(steps))
  {
    if steps != [] {
      hide Inv, Apply;
      RunsKeepInv(steps[..|steps| - 1]);
      StepKeepsInv(Run(steps[..|steps| - 1]), steps[|steps| - 1]);
    }
  }

  /**
   Whatever the database, the clock and the publishers do, what has been persisted is a
   subsequence of what was offered, in the order it was offered.
   */
  lemma {:induction false} PersistedInPublishOrder(steps: seq<Step>)
    ensures var k := Run(steps).books;
      && (forall i | 0 <= i < |k.persisted| ::
        k.persisted[i].id < |k.offered| && k.offered[k.persisted[i].id] == k.persisted[i])
      && (forall i, j | 0 <= i < j < |k.persisted| :: k.persisted[i].id < k.persisted[j].id)
  {
    RunsKeepInv(steps);
    var s := Run(steps);
    var flow := s.books.persisted + Unwritten(s);
    forall i | 0 <= i < |s.books.persisted|
      ensures s.books.persisted[i].id < |s.books.offered|
        && s.books.offered[s.books.persisted[i].id] == s.books.persisted[i]
    {
      var b := s.books.persisted[i];
      assert flow[i] == b;
      IncreasingAt(flow, |s.books.offered|, i, i);
      assert b in multiset(s.books.persisted);
      assert b in multiset(s.books.offered);
    }
    forall i, j | 0 <= i < j < |s.books.persisted| ensures s.books.persisted[i].id < s.books.persisted[j].id {
      assert flow[i] == s.books.persisted[i] && flow[j] == s.books.persisted[j];
      IncreasingAt(flow, |s.books.offered|, i, j);
    }
  }

  /** No batch is part of more than three persist calls, and a waiting batch has used the tries it records. */
  lemma {:induction false} AttemptsAreLimited(steps: seq<Step>, id: nat)
    ensures Run(steps).tries[id] <= MAX_BATCH_WRITE_ATTEMPTS
    ensures forall e | e in Run(steps).retry :: Run(steps).tries[e.batch.id] == e.attempts < MAX_BATCH_WRITE_ATTEMPTS
  {
    RunsKeepInv(steps);
  }

  /**
   Whatever the publishers, the database and the worker do, the counters say exactly what the
   queue and the worker hold, so admission decides by the truth and never exceeds a bound.
   */
  lemma {:induction false} CountersAreExact(steps: seq<Step>)
    ensures var s := Run(steps);
      && s.queue.pendingBatches == |Pending(s)| <= HISTORY_BATCH_QUEUE_CAPACITY
      && s.queue.pendingBatchBytes == Bytes(Pending(s)) <= MAX_HISTORY_QUEUE_BYTES
      && s.queue.queuedBatches == |Batches(s.queue.commands)|
      && s.queue.pendingControls == Controls(s.queue.commands) <= HISTORY_CONTROL_QUEUE_CAPACITY
  {
    hide Run, Batches, Bytes, Controls;
    RunsKeepInv(steps);
    var s := Run(steps);
    BytesAppend(Owned(s.point, s.retry), Batches(s.queue.commands));
  }

  /** The batch a worker step gives back to the queue, if any. */
  function Frees(s: State, c: Choice): (freed: seq<Batch>)
    ensures |freed| <= 1
  {
    match s.point
    case Retrying(e) => if c.persists || e.attempts + 1 < MAX_BATCH_WRITE_ATTEMPTS then [] else [e.batch]
    case Releasing(rest, _) => if rest == [] then [] else [rest[0]]
    case Closing => if s.retry == [] then [] else [s.retry[0].batch]
    case _ => []
  }

  /** No release ever saturates: each takes exactly its batch out of both counters. */
  lemma {:induction false} ReleasesAreExact(steps: seq<Step>, c: Choice)
    ensures var s := Run(steps); var s' := WorkStep(s, c); var freed := Frees(s, c);
      freed != [] ==>
        && s'.queue == s.queue.Freed(freed[0])
        && s'.queue.pendingBatches == s.queue.pendingBatches - 1
        && s'.queue.pendingBatchBytes == s.queue.pendingBatchBytes - freed[0].bytes
  {
    hide Run, Batches;
    RunsKeepInv(steps);
    var s := Run(steps);
    if Frees(s, c) != [] {
      FreedIsExact(s.queue, Owned(s.point, s.retry), Frees(s, c)[0]);
    }
  }

  /**
   Every offered batch is in exactly one place. What is pending beyond what is still to be
   written is the part of the last transaction that is not released yet.
   */
  lemma {:induction false} EveryBatchIsAccountedFor(steps: seq<Step>)
    ensures var s := Run(steps); var k := s.books;
      && multiset(k.offered)
         == multiset(k.persisted) + multiset(Unwritten(s)) + multiset(k.dropped) + multiset(k.refused)
      && (forall b | b in k.offered :: multiset(k.offered)[b] == 1)
      && |Unwritten(s)| <= s.queue.pendingBatches <= HISTORY_BATCH_QUEUE_CAPACITY
      && (s.point.Releasing? ==>
            && Pending(s) == s.point.rest + Unwritten(s)
            && |s.point.rest| <= |k.persisted| && k.persisted[|k.persisted| - |s.point.rest|..] == s.point.rest)
      && (!s.point.Releasing? ==> Pending(s) == Unwritten(s))
  {
    hide Run, Batches;
    RunsKeepInv(steps);
    var s := Run(steps);
    DistinctOnce(s.books.offered);
    if s.point.Releasing? {
      Associative(s.point.rest, RetryBatches(s.retry), Batches(s.queue.commands));
    }
  }

  lemma {:induction false} DistinctOnce(offered: seq<Batch>)
    requires Numbered(offered)
    ensures forall b | b in offered :: multiset(offered)[b] == 1
    ensures forall b :: b in offered ==> b.id < |offered|
  {
    if offered != [] {
      var n := |offered| - 1;
      DistinctOnce(offered[..n]);
      assert offered == offered[..n] + [offered[n]];
      assert offered[n] !in offered[..n];
    }
  }

  // ---------------------------------------------------------------------------
  // Why a batch is dropped
  // ---------------------------------------------------------------------------

  /** A batch is given up before any attempt, after its last one, or because the queue was closed. */
  ghost predicate DroppedForReason(s: State) {
    forall b | b in s.books.dropped ::
      s.tries[b.id] == 0 || s.tries[b.id] == MAX_BATCH_WRITE_ATTEMPTS || s.queue.closed
  }

  /** A batch that left is not one of those still to be written. */
  lemma LeftIsNotUnwritten(k: Books, unwritten: seq<Batch>, b: Batch, x: Batch)
    requires Placed(k, unwritten) && b in k.dropped && x in unwritten
    ensures b.id != x.id
  {
    hide Increasing;
    DistinctOnce(k.offered);
    assert b in multiset(k.dropped) && x in multiset(unwritten);
    assert b in multiset(k.offered) && x in multiset(k.offered);
    OfferedAt(k.offered, b);
    OfferedAt(k.offered, x);
    assert b == x ==> multiset(k.dropped)[b] >= 1 && multiset(unwritten)[b] >= 1;
  }

  lemma OfferedAt(offered: seq<Batch>, b: Batch)
    requires Numbered(offered) && b in offered
    ensures b.id < |offered| && offered[b.id] == b
  {
  }

  lemma OfferKeepsReasons(s: State, bytes: nat, oversized: bool)
    requires Attempts(s) && DroppedForReason(s) && Exact(s.queue, Owned(s.point, s.retry))
    ensures DroppedForReason(OfferBatch(s, bytes, oversized))
  {
    hide Exact, Push;
    var b, owned := Batch(|s.books.offered|, bytes), Owned(s.point, s.retry);
    PushedIsPush(s.queue, owned, b);
    var evicted, left := PushSplits(s.queue.commands, owned, b);
    assert forall x | x in evicted :: x in Batches(s.queue.commands);
  }

  lemma RetryPointKeepsReasons(s: State)
    requires Placed(s.books, Unwritten(s)) && DroppedForReason(s) && s.point == RetryPoint
    ensures DroppedForReason(AtRetryPoint(s))
  {
    hide Placed, Batches;
    if s.retry != [] {
      var x := s.retry[0].batch;
      RetryBatchAt(s.retry, 0);
      assert x in Unwritten(s) by { assert Unwritten(s)[0] == x; }
      forall b | b in s.books.dropped ensures b.id != x.id {
        LeftIsNotUnwritten(s.books, Unwritten(s), b, x);
      }
    }
  }

  lemma DrainingKeepsReasons(s: State)
    requires Placed(s.books, Unwritten(s)) && DroppedForReason(s) && s.point.Draining? && s.retry == []
    ensures DroppedForReason(AtDraining(s))
  {
    hide Placed, Batches, DrainCount;
    var n := DrainCount(s.queue.commands, [s.point.first]);
    PrefixBatches(s.queue.commands, n);
    DrainedCommands(s.queue, n);
    var batches, later := [s.point.first] + Batches(s.queue.commands[..n]), Batches(s.queue.commands[n..]);
    assert Unwritten(s) == batches + later;
    forall b, x | b in s.books.dropped && x in batches ensures b.id != x.id {
      assert x in Unwritten(s);
      LeftIsNotUnwritten(s.books, Unwritten(s), b, x);
    }
    var tries := s.tries + multiset(Ids(batches));
    assert forall b | b in s.books.dropped :: tries[b.id] == s.tries[b.id];
  }

  lemma WorkKeepsReasons(s: State, c: Choice)
    requires Placed(s.books, Unwritten(s)) && RetryGate(s) && Attempts(s) && DroppedForReason(s)
    ensures DroppedForReason(WorkStep(s, c))
  {
    hide Placed, Background, Batches, DrainCount, Limited, Untried, Waiting;
    match s.point
    case RetryPoint => RetryPointKeepsReasons(s);
    case Draining(_) => DrainingKeepsReasons(s);
    case _ =>
  }

  lemma StepKeepsReasons(s: State, step: Step)
    requires Inv(s) && DroppedForReason(s)
    ensures DroppedForReason(Apply(s, step))
  {
    hide Placed, Attempts, RetryGate, Exact, WorkStep, OfferBatch;
    match step
    case Offer(bytes, oversized) => OfferKeepsReasons(s, bytes, oversized);
    case OfferControl =>
    case Close =>
    case Work(c) => WorkKeepsReasons(s, c);
  }

  /**
   No batch is given up early: whatever is dropped was never tried because it was too large,
   evicted or found no room, or it failed all three attempts, or the queue was closed. And a
   batch is refused only by a closed queue.
   */
  lemma {:induction false} DroppedBatchesHadTheirAttempts(steps: seq<Step>)
    ensures var s := Run(steps);
      forall b | b in s.books.dropped ::
        s.tries[b.id] == 0 || s.tries[b.id] == MAX_BATCH_WRITE_ATTEMPTS || s.queue.closed
    ensures Run(steps).books.refused != [] ==> Run(steps).queue.closed
  {
    if steps != [] {
      var n := |steps| - 1;
      DroppedBatchesHadTheirAttempts(steps[..n]);
      RunsKeepInv(steps[..n]);
      RefusedStaysClosed(Run(steps[..n]), steps[n]);
      hide Inv, Apply;
      StepKeepsReasons(Run(steps[..n]), steps[n]);
    }
  }

  lemma RefusedStaysClosed(s: State, step: Step)
    requires (s.books.refused != [] ==> s.queue.closed) && Exact(s.queue, Owned(s.point, s.retry))
    ensures Apply(s, step).books.refused != [] ==> Apply(s, step).queue.closed
  {
    hide Exact, Batches, Background, DrainCount;
    match step
    case Offer(bytes, _) => PushedIsPush(s.queue, Owned(s.point, s.retry), Batch(|s.books.offered|, bytes));
    case Work(_) =>
      if s.point.Draining? {
        DrainedCommands(s.queue, DrainCount(s.queue.commands, [s.point.first]));
      }
    case _ =>
  }

  /** While cap work is pending no batch leaves the queue; the worker turns to its control commands. */
  lemma CapWorkHoldsBatches(s: State, c: Choice)
    requires s.point == SelectPoint && (s.flags.cap || s.flags.maintenance == Job(true))
    ensures Batches(WorkStep(s, c).queue.commands) == Batches(s.queue.commands)
    ensures WorkStep(s, c).point == Top
  {
    if s.queue.commands != [] {
      FrontCommand(s.queue.commands);
    }
  }

  /** A stopped worker holds nothing and its counters are zero: the rest was dropped or refused. */
  lemma {:induction false} StoppedHoldsNothing(steps: seq<Step>)
    requires Run(steps).point == Stopped
    ensures var k := Run(steps).books;
      multiset(k.offered) == multiset(k.persisted) + multiset(k.dropped) + multiset(k.refused)
    ensures Run(steps).queue == EMPTY_QUEUE.(closed := true)
  {
    RunsKeepInv(steps);
    assert Unwritten(Run(steps)) == [];
  }
}
