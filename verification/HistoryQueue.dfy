/** The bounded command queue between publishers and the history worker. */
module HistoryQueue {
  import opened Wrappers

  const HISTORY_BATCH_QUEUE_CAPACITY: nat := 1024
  const MAX_HISTORY_QUEUE_BYTES: nat := 64 * 1024 * 1024
  const HISTORY_CONTROL_QUEUE_CAPACITY: nat := 128
  const MAX_BATCHES_PER_TRANSACTION: nat := 64
  const MAX_TRANSACTION_BYTES: nat := 4 * 1024 * 1024

  /** A queued batch; `id` is its position among all offered batches. */
  datatype Batch = Batch(id: nat, bytes: nat)

  datatype Command = BatchCommand(batch: Batch) | Control

  function First(c: Command): seq<Batch> {
    if c.BatchCommand? then [c.batch] else []
  }

  function Batches(commands: seq<Command>): seq<Batch> {
    if commands == [] then [] else First(commands[0]) + Batches(commands[1..])
  }

  function Controls(commands: seq<Command>): nat {
    if commands == [] then 0
    else (if commands[0].Control? then 1 else 0) + Controls(commands[1..])
  }

  function Bytes(batches: seq<Batch>): nat {
    if batches == [] then 0 else batches[0].bytes + Bytes(batches[1..])
  }

  lemma Associative<T>(a: seq<T>, b: seq<T>, c: seq<T>)
    ensures a + (b + c) == a + b + c
  {
  }

  lemma {:induction false} BatchesAppend(a: seq<Command>, b: seq<Command>)
    ensures Batches(a + b) == Batches(a) + Batches(b)
    ensures Controls(a + b) == Controls(a) + Controls(b)
  {
    hide First;
    if a == [] {
      assert a + b == b && Batches(a) + Batches(b) == Batches(b);
    } else {
      BatchesAppend(a[1..], b);
      assert (a + b)[1..] == a[1..] + b && (a + b)[0] == a[0];
      Associative(First(a[0]), Batches(a[1..]), Batches(b));
    }
  }

  lemma {:induction false} BytesAppend(a: seq<Batch>, b: seq<Batch>)
    ensures Bytes(a + b) == Bytes(a) + Bytes(b)
  {
    if a == [] {
      assert a + b == b;
    } else {
      BytesAppend(a[1..], b);
      assert (a + b)[1..] == a[1..] + b;
    }
  }

  /** What the front command contributes. */
  lemma FrontCommand(commands: seq<Command>)
    requires commands != []
    ensures commands[0].BatchCommand? ==> Batches(commands) == [commands[0].batch] + Batches(commands[1..])
    ensures commands[0].BatchCommand? ==>
      Bytes(Batches(commands)) == commands[0].batch.bytes + Bytes(Batches(commands[1..]))
    ensures commands[0].Control? ==> Batches(commands) == Batches(commands[1..])
  {
  }

  lemma SingletonBytes(b: Batch)
    ensures Bytes([b]) == b.bytes && Batches([BatchCommand(b)]) == [b] && Batches([Control]) == []
    ensures Controls([Control]) == 1 && Controls([BatchCommand(b)]) == 0
  {
    assert [b][1..] == [];
  }

  /** The command queue without its first batch; control commands keep their places. */
  function WithoutFirstBatch(commands: seq<Command>): (rest: seq<Command>)
    requires Batches(commands) != []
    ensures Batches(rest) == Batches(commands)[1..]
    ensures Controls(rest) == Controls(commands)
    ensures |rest| < |commands|
  {
    if commands[0].BatchCommand? then commands[1..] else [commands[0]] + WithoutFirstBatch(commands[1..])
  }

  /** What the worker holds beside the queue counts against both bounds. */
  predicate Full(queued: seq<Batch>, owned: seq<Batch>, b: Batch) {
    || |queued| + |owned| >= HISTORY_BATCH_QUEUE_CAPACITY
    || Bytes(queued) + Bytes(owned) + b.bytes > MAX_HISTORY_QUEUE_BYTES
  }

  datatype Admission = Admission(commands: seq<Command>, evicted: seq<Batch>, accepted: bool)

  /** Evicts the oldest queued batches until the new one fits or none is left to evict. */
  function Evict(commands: seq<Command>, owned: seq<Batch>, b: Batch): Admission
    decreases |commands|
  {
    if !Full(Batches(commands), owned, b) then Admission(commands, [], true)
    else if Batches(commands) == [] then Admission(commands, [], false)
    else
      var rest := Evict(WithoutFirstBatch(commands), owned, b);
      rest.(evicted := [Batches(commands)[0]] + rest.evicted)
  }

  /** Having evicted `sofar`, the rest of the loop reaches `target`. */
  ghost predicate Leads(commands: seq<Command>, owned: seq<Batch>, b: Batch, sofar: seq<Batch>, target: Admission) {
    var rest := Evict(commands, owned, b);
    rest.commands == target.commands && rest.accepted == target.accepted && sofar + rest.evicted == target.evicted
  }

  lemma EvictNext(commands: seq<Command>, owned: seq<Batch>, b: Batch, sofar: seq<Batch>, target: Admission)
    requires Leads(commands, owned, b, sofar, target) && Full(Batches(commands), owned, b)
    ensures Batches(commands) == [] ==> !target.accepted && target.commands == commands && target.evicted == sofar
    ensures Batches(commands) != [] ==>
      Leads(WithoutFirstBatch(commands), owned, b, sofar + [Batches(commands)[0]], target)
  {
    if Batches(commands) != [] {
      var rest := Evict(WithoutFirstBatch(commands), owned, b);
      assert sofar + ([Batches(commands)[0]] + rest.evicted) == sofar + [Batches(commands)[0]] + rest.evicted;
    }
  }

  lemma EvictDone(commands: seq<Command>, owned: seq<Batch>, b: Batch, sofar: seq<Batch>, target: Admission)
    requires Leads(commands, owned, b, sofar, target) && !Full(Batches(commands), owned, b)
    ensures target.accepted && target.commands == commands && target.evicted == sofar
  {
    assert sofar + [] == sofar;
  }

  function Push(commands: seq<Command>, owned: seq<Batch>, b: Batch): Admission {
    var a := Evict(commands, owned, b);
    if a.accepted then a.(commands := a.commands + [BatchCommand(b)]) else a
  }

  /** The evicted batches are the oldest ones; the rest and every control command stay. */
  lemma {:induction false} EvictSplits(commands: seq<Command>, owned: seq<Batch>, b: Batch)
    ensures var a := Evict(commands, owned, b);
      && Batches(commands) == a.evicted + Batches(a.commands)
      && Controls(a.commands) == Controls(commands)
      && (a.accepted <==> !Full(Batches(a.commands), owned, b))
      && (!a.accepted ==> Batches(a.commands) == [])
    decreases |commands|
  {
    hide Full, Batches, Controls, WithoutFirstBatch;
    var queued := Batches(commands);
    if Full(queued, owned, b) && queued != [] {
      var rest := WithoutFirstBatch(commands);
      EvictSplits(rest, owned, b);
      var a := Evict(rest, owned, b);
      assert queued == [queued[0]] + queued[1..];
      Associative([queued[0]], a.evicted, Batches(a.commands));
    }
  }

  /** At every stop before the last one the new batch did not fit. */
  lemma {:induction false} EvictedWasNeeded(commands: seq<Command>, owned: seq<Batch>, b: Batch, j: nat)
    requires j < |Evict(commands, owned, b).evicted| <= |Batches(commands)|
    ensures Full(Batches(commands)[j..], owned, b)
    decreases |commands|
  {
    hide Full, Batches;
    var queued := Batches(commands);
    if j == 0 {
      assert queued[0..] == queued;
    } else {
      EvictedWasNeeded(WithoutFirstBatch(commands), owned, b, j - 1);
      assert queued[1..][j - 1..] == queued[j..];
    }
  }

  /**
   The publish loop evicts exactly the shortest prefix of the queued batches that makes
   room, keeps every control command, and refuses the new batch only when the batches the
   worker already holds leave no room at all.
   */
  lemma EvictIsMinimal(commands: seq<Command>, owned: seq<Batch>, b: Batch)
    ensures var a := Evict(commands, owned, b); var k := |a.evicted|; var queued := Batches(commands);
      && k <= |queued| && a.evicted == queued[..k] && Batches(a.commands) == queued[k..]
      && Controls(a.commands) == Controls(commands)
      && (forall j | 0 <= j < k :: Full(queued[j..], owned, b))
      && (a.accepted <==> !Full(queued[k..], owned, b))
      && (!a.accepted ==> k == |queued| && Full([], owned, b))
  {
    hide Full, Batches, Controls, Evict;
    EvictSplits(commands, owned, b);
    var queued, a := Batches(commands), Evict(commands, owned, b);
    assert queued[..|a.evicted|] == a.evicted && queued[|a.evicted|..] == Batches(a.commands);
    forall j | 0 <= j < |Evict(commands, owned, b).evicted| ensures Full(queued[j..], owned, b) {
      EvictedWasNeeded(commands, owned, b, j);
    }
  }

  /** An accepted batch leaves the queue and the worker together within both bounds. */
  lemma PushKeepsBounds(commands: seq<Command>, owned: seq<Batch>, b: Batch)
    requires |Batches(commands)| + |owned| <= HISTORY_BATCH_QUEUE_CAPACITY
    requires Bytes(Batches(commands)) + Bytes(owned) <= MAX_HISTORY_QUEUE_BYTES
    ensures var a := Push(commands, owned, b);
      && |Batches(a.commands)| + |owned| <= HISTORY_BATCH_QUEUE_CAPACITY
      && Bytes(Batches(a.commands)) + Bytes(owned) <= MAX_HISTORY_QUEUE_BYTES
      && Controls(a.commands) == Controls(commands)
  {
    hide Batches, Bytes, Evict;
    var a := Evict(commands, owned, b);
    EvictSplits(commands, owned, b);
    BytesAppend(a.evicted, Batches(a.commands));
    BatchesAppend(a.commands, [BatchCommand(b)]);
    BytesAppend(Batches(a.commands), [b]);
    SingletonBytes(b);
  }

  /** A worker holding nothing never causes a batch of legal size to be refused. */
  lemma IdleWorkerAccepts(commands: seq<Command>, b: Batch)
    requires b.bytes <= MAX_HISTORY_QUEUE_BYTES
    ensures Push(commands, [], b).accepted
  {
    EvictSplits(commands, [], b);
  }

  /** How many queued batches join a transaction that already holds `taken`. */
  function DrainCount(commands: seq<Command>, taken: seq<Batch>): (n: nat)
    ensures n <= |commands|
    ensures forall i | 0 <= i < n :: commands[i].BatchCommand?
    decreases |commands|
  {
    if |taken| < MAX_BATCHES_PER_TRANSACTION && commands != [] && commands[0].BatchCommand?
       && (taken == [] || Bytes(taken) + commands[0].batch.bytes <= MAX_TRANSACTION_BYTES)
    then 1 + DrainCount(commands[1..], taken + [commands[0].batch])
    else 0
  }

  /**
   Draining takes as many batches as fit: the transaction stays within 64 batches and, when
   it already held one, within 4 MiB; it stops only at a limit, a control command or the end.
   */
  lemma {:induction false} DrainIsMaximal(commands: seq<Command>, taken: seq<Batch>)
    ensures var n := DrainCount(commands, taken); var more := Batches(commands[..n]);
      && (n > 0 ==> |taken| + n <= MAX_BATCHES_PER_TRANSACTION)
      && (n > 0 && taken != [] ==> Bytes(taken) + Bytes(more) <= MAX_TRANSACTION_BYTES)
      && (|| |taken| + n >= MAX_BATCHES_PER_TRANSACTION
          || n == |commands|
          || commands[n].Control?
          || (taken + more != [] && Bytes(taken) + Bytes(more) + commands[n].batch.bytes > MAX_TRANSACTION_BYTES))
    decreases |commands|
  {
    hide Batches, Bytes;
    var n := DrainCount(commands, taken);
    EmptyBatches();
    if n == 0 {
      assert commands[..0] == [] && taken + [] == taken;
    } else {
      var b := commands[0].batch;
      DrainIsMaximal(commands[1..], taken + [b]);
      BytesAppend(taken, [b]);
      SingletonBytes(b);
      assert commands[..n][1..] == commands[1..][..n - 1];
      FrontCommand(commands[..n]);
      var rest := Batches(commands[1..][..n - 1]);
      Associative(taken, [b], rest);
    }
  }

  lemma {:induction false} PrefixBatches(commands: seq<Command>, n: nat)
    requires n <= |commands| && forall i | 0 <= i < n :: commands[i].BatchCommand?
    ensures |Batches(commands[..n])| == n && Controls(commands[..n]) == 0
    ensures Batches(commands) == Batches(commands[..n]) + Batches(commands[n..])
    ensures Controls(commands) == Controls(commands[n..])
  {
    assert commands == commands[..n] + commands[n..];
    BatchesAppend(commands[..n], commands[n..]);
    AllBatches(commands[..n]);
  }

  lemma {:induction false} AllBatches(commands: seq<Command>)
    requires forall i | 0 <= i < |commands| :: commands[i].BatchCommand?
    ensures |Batches(commands)| == |commands| && Controls(commands) == 0
  {
    if commands != [] {
      AllBatches(commands[1..]);
    }
  }

  /** The batches of a queue as a queue of their own. */
  function OnlyBatches(commands: seq<Command>): (kept: seq<Command>)
    ensures Batches(kept) == Batches(commands) && Controls(kept) == 0
  {
    if commands == [] then []
    else if commands[0].BatchCommand? then [commands[0]] + OnlyBatches(commands[1..])
    else OnlyBatches(commands[1..])
  }

  function Released(owned: seq<Batch>, b: Batch): (rest: seq<Batch>)
    requires b in owned
    ensures |rest| == |owned| - 1 && Bytes(rest) == Bytes(owned) - b.bytes
    ensures multiset(rest) == multiset(owned) - multiset{b}
  {
    if owned[0] == b then
      assert owned == [owned[0]] + owned[1..];
      owned[1..]
    else
      assert owned == [owned[0]] + owned[1..];
      [owned[0]] + Released(owned[1..], b)
  }

  lemma EmptyBatches()
    ensures Batches([]) == [] && Controls([]) == 0 && Bytes([]) == 0
  {
  }

  lemma BatchesTake(commands: seq<Command>, i: nat)
    requires i < |commands| && commands[i].BatchCommand?
    ensures Batches(commands[..i + 1]) == Batches(commands[..i]) + [commands[i].batch]
    ensures commands[i..][1..] == commands[i + 1..]
  {
    assert commands[..i + 1] == commands[..i] + [commands[i]];
    BatchesAppend(commands[..i], [commands[i]]);
    SingletonBytes(commands[i].batch);
  }

  // ---------------------------------------------------------------------------
  // The counters the code decides by
  // ---------------------------------------------------------------------------

  function SaturatingAdd(a: nat, b: nat): nat {
    Min(a + b, U64_MAX)
  }

  /** Plain machine arithmetic: it wraps when the counter is wrong. */
  function Incremented(n: nat): nat {
    if n >= U64_MAX then 0 else n + 1
  }

  function Decremented(n: nat): nat {
    if n == 0 then U64_MAX else n - 1
  }

  /**
   The lock-protected state. Every operation decides by the counters alone, whatever they
   say; that they say the truth is proved below.
   */
  datatype Queue = Queue(
    commands: seq<Command>,
    queuedBatches: nat,
    pendingBatches: nat,
    pendingControls: nat,
    pendingBatchBytes: nat,
    closed: bool)
  {
    predicate HasRoom(b: Batch) {
      && pendingBatches < HISTORY_BATCH_QUEUE_CAPACITY
      && SaturatingAdd(pendingBatchBytes, b.bytes) <= MAX_HISTORY_QUEUE_BYTES
    }

    function WithoutOldest(): Queue
      requires Batches(commands) != []
    {
      this.(commands := WithoutFirstBatch(commands),
            queuedBatches := Decremented(queuedBatches),
            pendingBatches := Decremented(pendingBatches),
            pendingBatchBytes := SaturatingSub(pendingBatchBytes, Batches(commands)[0].bytes))
    }

    function MakeRoom(b: Batch): Outcome
      decreases |commands|
    {
      if HasRoom(b) then Outcome(this, [], true)
      else if Batches(commands) == [] then Outcome(this, [], false)
      else
        var rest := WithoutOldest().MakeRoom(b);
        rest.(evicted := [Batches(commands)[0]] + rest.evicted)
    }

    function Appended(b: Batch): Queue {
      this.(commands := commands + [BatchCommand(b)],
            queuedBatches := Incremented(queuedBatches),
            pendingBatches := Incremented(pendingBatches),
            pendingBatchBytes := SaturatingAdd(pendingBatchBytes, b.bytes))
    }

    function Pushed(b: Batch): Outcome {
      var room := MakeRoom(b);
      if room.accepted then room.(queue := room.queue.Appended(b)) else room
    }

    function WithControl(): Queue {
      if closed || pendingControls >= HISTORY_CONTROL_QUEUE_CAPACITY then this
      else this.(commands := commands + [Control], pendingControls := Incremented(pendingControls))
    }

    function Popped(): Queue
      requires commands != []
    {
      if commands[0].BatchCommand? then
        this.(commands := commands[1..], queuedBatches := Decremented(queuedBatches))
      else
        this.(commands := commands[1..], pendingControls := Decremented(pendingControls))
    }

    function Drained(n: nat): Queue
      requires n <= |commands|
      decreases n
    {
      if n == 0 then this else Popped().Drained(n - 1)
    }

    function Freed(b: Batch): Queue {
      this.(pendingBatches := SaturatingSub(pendingBatches, 1),
            pendingBatchBytes := SaturatingSub(pendingBatchBytes, b.bytes))
    }

    function WithoutControls(): Queue {
      this.(commands := OnlyBatches(commands), pendingControls := 0)
    }

    function Discarded(): Queue {
      if !closed then this
      else Queue([], 0, SaturatingSub(pendingBatches, |Batches(commands)|), 0,
                 SaturatingSub(pendingBatchBytes, Bytes(Batches(commands))), closed)
    }
  }

  datatype Outcome = Outcome(queue: Queue, evicted: seq<Batch>, accepted: bool)

  const EMPTY_QUEUE := Queue([], 0, 0, 0, 0, false)

  /** The counters are exact for a worker holding `owned`, and within every bound. */
  ghost predicate Exact(q: Queue, owned: seq<Batch>) {
    && q.queuedBatches == |Batches(q.commands)|
    && q.pendingBatches == |Batches(q.commands)| + |owned| <= HISTORY_BATCH_QUEUE_CAPACITY
    && q.pendingControls == Controls(q.commands) <= HISTORY_CONTROL_QUEUE_CAPACITY
    && q.pendingBatchBytes == Bytes(Batches(q.commands)) + Bytes(owned) <= MAX_HISTORY_QUEUE_BYTES
  }

  lemma EmptyIsExact()
    ensures Exact(EMPTY_QUEUE, []) && Bytes([]) == 0
  {
  }

  lemma HasRoomIffNotFull(q: Queue, owned: seq<Batch>, b: Batch)
    requires Exact(q, owned)
    ensures q.HasRoom(b) <==> !Full(Batches(q.commands), owned, b)
  {
  }

  lemma WithoutOldestIsExact(q: Queue, owned: seq<Batch>)
    requires Exact(q, owned) && Batches(q.commands) != []
    ensures Exact(q.WithoutOldest(), owned)
  {
  }

  /** Deciding by the counters is deciding by the lists, and leaves the counters exact. */
  lemma {:induction false} MakeRoomIsEvict(q: Queue, owned: seq<Batch>, b: Batch)
    requires Exact(q, owned)
    ensures var m := q.MakeRoom(b); var a := Evict(q.commands, owned, b);
      && m.queue.commands == a.commands && m.evicted == a.evicted && m.accepted == a.accepted
      && m.queue.closed == q.closed && Exact(m.queue, owned)
      && (m.accepted ==> m.queue.HasRoom(b))
    decreases |q.commands|
  {
    hide Full, Batches, WithoutFirstBatch, Exact;
    HasRoomIffNotFull(q, owned, b);
    if !q.HasRoom(b) && Batches(q.commands) != [] {
      WithoutOldestIsExact(q, owned);
      MakeRoomIsEvict(q.WithoutOldest(), owned, b);
    }
  }

  lemma AppendedIsExact(q: Queue, owned: seq<Batch>, b: Batch)
    requires Exact(q, owned) && q.HasRoom(b)
    ensures Exact(q.Appended(b), owned)
  {
    BatchesAppend(q.commands, [BatchCommand(b)]);
    BytesAppend(Batches(q.commands), [b]);
    SingletonBytes(b);
  }

  /** Publishing by the counters refines publishing by the lists. */
  lemma PushedIsPush(q: Queue, owned: seq<Batch>, b: Batch)
    requires Exact(q, owned)
    ensures var m := q.Pushed(b); var a := Push(q.commands, owned, b);
      && m.queue.commands == a.commands && m.evicted == a.evicted && m.accepted == a.accepted
      && m.queue.closed == q.closed && Exact(m.queue, owned)
  {
    hide Exact, Evict;
    MakeRoomIsEvict(q, owned, b);
    var room := q.MakeRoom(b);
    if room.accepted {
      AppendedIsExact(room.queue, owned, b);
    }
  }

  lemma WithControlIsExact(q: Queue, owned: seq<Batch>)
    requires Exact(q, owned)
    ensures Exact(q.WithControl(), owned) && Batches(q.WithControl().commands) == Batches(q.commands)
  {
    BatchesAppend(q.commands, [Control]);
    assert Batches(q.commands + [Control]) == Batches(q.commands);
  }

  /** A batch that leaves the queue stays pending in the worker's hands. */
  lemma PoppedIsExact(q: Queue, owned: seq<Batch>)
    requires Exact(q, owned) && q.commands != []
    ensures Exact(q.Popped(), owned + First(q.commands[0]))
    ensures q.commands[0].BatchCommand? ==> q.queuedBatches > 0
    ensures q.commands[0].Control? ==> q.pendingControls > 0
  {
    FrontCommand(q.commands);
    BytesAppend(owned, First(q.commands[0]));
    if q.commands[0].BatchCommand? {
      SingletonBytes(q.commands[0].batch);
    }
  }

  lemma {:induction false} DrainedCommands(q: Queue, n: nat)
    requires n <= |q.commands|
    ensures q.Drained(n).commands == q.commands[n..] && q.Drained(n).closed == q.closed
    decreases n
  {
    if n > 0 {
      DrainedCommands(q.Popped(), n - 1);
    }
  }

  lemma {:induction false} DrainedIsExact(q: Queue, owned: seq<Batch>, n: nat)
    requires Exact(q, owned) && n <= |q.commands|
    ensures Exact(q.Drained(n), owned + Batches(q.commands[..n]))
    decreases n
  {
    hide Exact, First;
    if n == 0 {
      assert q.commands[..0] == [] && owned + Batches([]) == owned;
    } else {
      var c := q.commands[0];
      PoppedIsExact(q, owned);
      DrainedIsExact(q.Popped(), owned + First(c), n - 1);
      assert q.commands[..n][1..] == q.commands[1..][..n - 1];
      Associative(owned, First(c), Batches(q.commands[1..][..n - 1]));
    }
  }

  /** Releasing a batch the worker holds saturates nowhere. */
  lemma FreedIsExact(q: Queue, owned: seq<Batch>, b: Batch)
    requires Exact(q, owned) && b in owned
    ensures Exact(q.Freed(b), Released(owned, b))
    ensures q.Freed(b).pendingBatches == q.pendingBatches - 1
    ensures q.Freed(b).pendingBatchBytes == q.pendingBatchBytes - b.bytes
  {
  }

  lemma WithoutControlsIsExact(q: Queue, owned: seq<Batch>)
    requires Exact(q, owned)
    ensures Exact(q.WithoutControls(), owned)
  {
  }

  lemma DiscardedIsExact(q: Queue, owned: seq<Batch>)
    requires Exact(q, owned)
    ensures Exact(q.Discarded(), owned)
  {
  }

  /** Exact counters are determined by the commands and what the worker holds. */
  lemma ExactIsUnique(q: Queue, q': Queue, owned: seq<Batch>)
    requires Exact(q, owned) && Exact(q', owned) && q.commands == q'.commands && q.closed == q'.closed
    ensures q == q'
  {
  }

  /** The batches of a queue, control commands dropped. */
  method RetainBatches(commands: seq<Command>) returns (retained: seq<Command>)
    ensures retained == OnlyBatches(commands)
  {
    retained := [];
    var i := 0;
    assert commands[0..] == commands;
    while i < |commands|
      invariant i <= |commands|
      invariant retained + OnlyBatches(commands[i..]) == OnlyBatches(commands)
    {
      assert commands[i..][1..] == commands[i + 1..];
      ghost var rest := OnlyBatches(commands[i + 1..]);
      if commands[i].BatchCommand? {
        assert retained + [commands[i]] + rest == retained + ([commands[i]] + rest);
        retained := retained + [commands[i]];
      }
      i := i + 1;
    }
  }

  /** How many batches a queue holds, and their bytes. */
  method CountBatches(commands: seq<Command>) returns (count: nat, bytes: nat)
    ensures count == |Batches(commands)| && bytes == Bytes(Batches(commands))
  {
    count, bytes := 0, 0;
    var i := 0;
    assert commands[0..] == commands;
    while i < |commands|
      invariant i <= |commands|
      invariant count + |Batches(commands[i..])| == |Batches(commands)|
      invariant bytes + Bytes(Batches(commands[i..])) == Bytes(Batches(commands))
    {
      FrontCommand(commands[i..]);
      assert commands[i..][1..] == commands[i + 1..];
      if commands[i].BatchCommand? {
        count := count + 1;
        bytes := bytes + commands[i].batch.bytes;
      }
      i := i + 1;
    }
    assert commands[|commands|..] == [];
  }

  datatype PublishResult = Published | Closed | BatchMemoryTooLarge
  datatype ControlResult = Queued | ControlClosed | Overloaded

  /** The shared queue; `owned` is what the worker took and has not released. */
  class Shared {
    var commands: seq<Command>
    var queuedBatches: nat
    var pendingBatches: nat
    var pendingControls: nat
    var pendingBatchBytes: nat
    var closed: bool
    var droppedBatches: nat
    var droppedBatchBytes: nat
    const maximumDatabaseBytes: nat
    ghost var owned: seq<Batch>
    ghost var dropped: seq<Batch>

    function View(): Queue
      reads this
    {
      Queue(commands, queuedBatches, pendingBatches, pendingControls, pendingBatchBytes, closed)
    }

    /** Every counter is exact and every bound holds. */
    ghost predicate Valid()
      reads this
    {
      Exact(View(), owned) && droppedBatches == |dropped| && droppedBatchBytes == Bytes(dropped)
    }

    constructor (maximumDatabaseBytes: nat)
      ensures Valid() && View() == EMPTY_QUEUE && owned == [] && dropped == []
    {
      hide Exact;
      EmptyIsExact();
      commands, owned, dropped, closed := [], [], [], false;
      queuedBatches, pendingBatches, pendingControls, pendingBatchBytes := 0, 0, 0, 0;
      droppedBatches, droppedBatchBytes := 0, 0;
      this.maximumDatabaseBytes := maximumDatabaseBytes;
    }

    /** Counts a batch as dropped. */
    method RecordDropped(b: Batch)
      requires Valid()
      modifies this`droppedBatches, this`droppedBatchBytes, this`dropped
      ensures Valid() && dropped == old(dropped) + [b]
    {
      BytesAppend(dropped, [b]);
      dropped := dropped + [b];
      droppedBatches := droppedBatches + 1;
      droppedBatchBytes := droppedBatchBytes + b.bytes;
    }

    /** Offers a batch; oversized ones are dropped before they reach the queue. */
    method TryPublish(b: Batch) returns (r: PublishResult)
      requires Valid()
      modifies this
      ensures Valid() && owned == old(owned) && closed == old(closed)
      ensures b.bytes > MAX_HISTORY_QUEUE_BYTES || b.bytes > maximumDatabaseBytes ==>
        r == BatchMemoryTooLarge && View() == old(View()) && dropped == old(dropped) + [b]
      ensures b.bytes <= MAX_HISTORY_QUEUE_BYTES && b.bytes <= maximumDatabaseBytes && old(closed) ==>
        r == Closed && View() == old(View()) && dropped == old(dropped)
      ensures b.bytes <= MAX_HISTORY_QUEUE_BYTES && b.bytes <= maximumDatabaseBytes && !old(closed) ==>
        var a := Push(old(commands), owned, b);
        && View() == old(View()).Pushed(b).queue && commands == a.commands
        && (r == Published <==> a.accepted) && (r == BatchMemoryTooLarge <==> !a.accepted)
        && dropped == old(dropped) + a.evicted + if a.accepted then [] else [b]
    {
      if b.bytes > MAX_HISTORY_QUEUE_BYTES || b.bytes > maximumDatabaseBytes {
        RecordDropped(b);
        return BatchMemoryTooLarge;
      }
      r := PushBatch(b);
    }

    /** Drops the oldest queued batches, counting each, until the new batch fits. */
    method EvictFor(b: Batch) returns (accepted: bool)
      requires Valid() && !closed
      modifies this`commands, this`queuedBatches, this`pendingBatches, this`pendingBatchBytes
      modifies this`droppedBatches, this`droppedBatchBytes, this`dropped
      ensures Valid() && View() == old(View()).MakeRoom(b).queue
      ensures var a := Evict(old(commands), owned, b);
        accepted == a.accepted && commands == a.commands && dropped == old(dropped) + a.evicted
      ensures accepted ==> View().HasRoom(b)
    {
      hide Evict, Batches, Exact;
      ghost var spec := View().MakeRoom(b);
      MakeRoomIsEvict(View(), owned, b);
      ghost var target := Evict(commands, owned, b);
      ghost var evictedSoFar: seq<Batch> := [];
      assert [] + target.evicted == target.evicted;
      while
        || pendingBatches >= HISTORY_BATCH_QUEUE_CAPACITY
        || SaturatingAdd(pendingBatchBytes, b.bytes) > MAX_HISTORY_QUEUE_BYTES
        invariant Valid() && !closed && dropped == old(dropped) + evictedSoFar
        invariant Leads(commands, owned, b, evictedSoFar, target)
        decreases |commands|
      {
        HasRoomIffNotFull(View(), owned, b);
        EvictNext(commands, owned, b, evictedSoFar, target);
        if Batches(commands) == [] {
          ExactIsUnique(View(), spec.queue, owned);
          return false;
        }
        var evicted := EvictOldest();
        evictedSoFar := evictedSoFar + [evicted];
      }
      HasRoomIffNotFull(View(), owned, b);
      EvictDone(commands, owned, b, evictedSoFar, target);
      ExactIsUnique(View(), spec.queue, owned);
      accepted := true;
    }

    method EvictOldest() returns (evicted: Batch)
      requires Valid() && Batches(commands) != []
      modifies this`commands, this`queuedBatches, this`pendingBatches, this`pendingBatchBytes
      modifies this`droppedBatches, this`droppedBatchBytes, this`dropped
      ensures Valid() && evicted == Batches(old(commands))[0] && View() == old(View()).WithoutOldest()
      ensures dropped == old(dropped) + [evicted]
    {
      evicted := Batches(commands)[0];
      commands := WithoutFirstBatch(commands);
      queuedBatches := queuedBatches - 1;
      pendingBatches := pendingBatches - 1;
      pendingBatchBytes := SaturatingSub(pendingBatchBytes, evicted.bytes);
      RecordDropped(evicted);
    }

    method PushBatch(b: Batch) returns (r: PublishResult)
      requires Valid()
      modifies this
      ensures Valid() && owned == old(owned) && closed == old(closed)
      ensures old(closed) ==> r == Closed && View() == old(View()) && dropped == old(dropped)
      ensures !old(closed) ==>
        var a := Push(old(commands), owned, b);
        && View() == old(View()).Pushed(b).queue && commands == a.commands
        && (r == Published <==> a.accepted) && (r == BatchMemoryTooLarge <==> !a.accepted)
        && dropped == old(dropped) + a.evicted + if a.accepted then [] else [b]
    {
      if closed { return Closed; }
      hide Evict, Exact;
      MakeRoomIsEvict(View(), owned, b);
      var accepted := EvictFor(b);
      if !accepted {
        RecordDropped(b);
        return BatchMemoryTooLarge;
      }
      AppendBatch(b);
      r := Published;
    }

    method AppendBatch(b: Batch)
      requires Valid() && View().HasRoom(b)
      modifies this`commands, this`queuedBatches, this`pendingBatches, this`pendingBatchBytes
      ensures Valid() && View() == old(View()).Appended(b)
    {
      AppendedIsExact(View(), owned, b);
      pendingBatchBytes := SaturatingAdd(pendingBatchBytes, b.bytes);
      commands := commands + [BatchCommand(b)];
      queuedBatches := queuedBatches + 1;
      pendingBatches := pendingBatches + 1;
    }

    method PushControl() returns (r: ControlResult)
      requires Valid()
      modifies this`commands, this`pendingControls
      ensures Valid() && View() == old(View()).WithControl()
      ensures r == ControlClosed <==> closed
      ensures r == Overloaded <==> !closed && old(pendingControls) >= HISTORY_CONTROL_QUEUE_CAPACITY
      ensures commands == if r == Queued then old(commands) + [Control] else old(commands)
    {
      if closed { return ControlClosed; }
      if pendingControls >= HISTORY_CONTROL_QUEUE_CAPACITY { return Overloaded; }
      WithControlIsExact(View(), owned);
      commands := commands + [Control];
      pendingControls := pendingControls + 1;
      r := Queued;
    }

    /** Takes the front command; a batch stays pending until it is released. */
    method Pop() returns (r: Option<Command>)
      requires Valid()
      modifies this`commands, this`queuedBatches, this`pendingControls, this`owned
      ensures Valid()
      ensures old(commands) == [] ==> r == None && commands == [] && owned == old(owned)
      ensures old(commands) != [] ==>
        && r == Some(old(commands)[0])
        && View() == old(View()).Popped() && commands == old(commands)[1..]
        && owned == old(owned) + if r.value.BatchCommand? then [r.value.batch] else []
    {
      if commands == [] { return None; }
      r := Some(commands[0]);
      if commands[0].BatchCommand? {
        var b := TakeFront();
      } else {
        hide Exact;
        PoppedIsExact(View(), owned);
        assert owned + [] == owned;
        commands := commands[1..];
        pendingControls := pendingControls - 1;
      }
    }

    /** Takes the front command only when it is not a batch. */
    method PopControl() returns (found: bool)
      requires Valid()
      modifies this`commands, this`pendingControls
      ensures Valid()
      ensures found <==> old(commands) != [] && old(commands)[0].Control?
      ensures View() == if found then old(View()).Popped() else old(View())
    {
      if commands == [] || commands[0].BatchCommand? { return false; }
      FrontCommand(commands);
      commands := commands[1..];
      pendingControls := pendingControls - 1;
      found := true;
    }

    /** Takes a batch off the front; it stays pending. */
    method TakeFront() returns (b: Batch)
      requires Valid() && commands != [] && commands[0].BatchCommand?
      modifies this`commands, this`queuedBatches, this`owned
      ensures Valid() && b == old(commands)[0].batch && View() == old(View()).Popped() && owned == old(owned) + [b]
    {
      FrontCommand(commands);
      b := commands[0].batch;
      commands := commands[1..];
      queuedBatches := queuedBatches - 1;
      BytesAppend(owned, [b]);
      SingletonBytes(b);
      owned := owned + [b];
    }

    /** Extends a transaction with the batches that directly follow in the queue. */
    method DrainFollowing(first: seq<Batch>) returns (batches: seq<Batch>)
      requires Valid()
      modifies this`commands, this`queuedBatches, this`owned
      ensures Valid()
      ensures var n := DrainCount(old(commands), first);
        && View() == old(View()).Drained(n) && commands == old(commands)[n..]
        && batches == first + Batches(old(commands)[..n])
        && owned == old(owned) + Batches(old(commands)[..n])
    {
      hide Exact, Batches, Bytes, Controls;
      batches := first;
      var transactionBytes := Bytes(batches);
      ghost var q := View();
      ghost var was, had := commands, owned;
      ghost var taken, n, moved := 0, DrainCount(commands, first), Batches([]);
      assert was[..0] == [] && was[0..] == was && Batches([]) == [] by { EmptyBatches(); }
      while |batches| < MAX_BATCHES_PER_TRANSACTION && commands != [] && commands[0].BatchCommand?
        invariant Valid() && transactionBytes == Bytes(batches)
        invariant taken <= |was| && commands == was[taken..] && moved == Batches(was[..taken])
        invariant batches == first + moved && owned == had + moved
        invariant taken + DrainCount(commands, batches) == n
        decreases |commands|
      {
        if batches != [] && transactionBytes + commands[0].batch.bytes > MAX_TRANSACTION_BYTES { break; }
        BatchesTake(was, taken);
        var next := TakeFront();
        BytesAppend(batches, [next]);
        SingletonBytes(next);
        transactionBytes := transactionBytes + next.bytes;
        batches := batches + [next];
        moved := moved + [next];
        taken := taken + 1;
      }
      DrainedIsExact(q, had, n);
      DrainedCommands(q, n);
      ExactIsUnique(View(), q.Drained(n), owned);
    }

    /** Answers every queued control command with a failure. */
    method FailPendingControls()
      requires Valid()
      modifies this`commands, this`pendingControls
      ensures Valid() && View() == old(View()).WithoutControls()
    {
      commands := RetainBatches(commands);
      pendingControls := 0;
    }

    method Close()
      requires Valid()
      modifies this`closed
      ensures Valid() && View() == old(View()).(closed := true)
    {
      closed := true;
    }

    /** Once closed, drops every queued batch and clears the queue. */
    method DiscardBatchesWhenClosed() returns (discarded: bool)
      requires Valid()
      modifies this
      ensures Valid() && View() == old(View()).Discarded() && discarded == old(closed) && owned == old(owned)
      ensures discarded ==> commands == [] && dropped == old(dropped) + Batches(old(commands))
      ensures !discarded ==> dropped == old(dropped)
    {
      if !closed { return false; }
      hide Bytes, Controls, Batches;
      var discardedBatches, discardedBytes := CountBatches(commands);
      BytesAppend(dropped, Batches(commands));
      dropped := dropped + Batches(commands);
      droppedBatches := droppedBatches + discardedBatches;
      droppedBatchBytes := droppedBatchBytes + discardedBytes;
      ClearCommands(discardedBatches, discardedBytes);
      discarded := true;
    }

    method ClearCommands(discardedBatches: nat, discardedBytes: nat)
      requires Valid() && closed
      requires discardedBatches == |Batches(commands)| && discardedBytes == Bytes(Batches(commands))
      modifies this`commands, this`queuedBatches, this`pendingBatches, this`pendingControls, this`pendingBatchBytes
      ensures Valid() && View() == old(View()).Discarded()
    {
      commands := [];
      queuedBatches := 0;
      pendingBatches := SaturatingSub(pendingBatches, discardedBatches);
      pendingControls := 0;
      pendingBatchBytes := SaturatingSub(pendingBatchBytes, discardedBytes);
    }

    /** Releases any batch; when the worker holds it, neither subtraction saturates. */
    method ReleaseOwned(b: Batch)
      modifies this`pendingBatches, this`pendingBatchBytes, this`owned
      ensures View() == old(View()).Freed(b)
      ensures owned == if b in old(owned) then Released(old(owned), b) else old(owned)
      ensures old(Valid()) && b in old(owned) ==>
        && Valid()
        && pendingBatches == old(pendingBatches) - 1 && pendingBatchBytes == old(pendingBatchBytes) - b.bytes
    {
      if b in owned {
        owned := Released(owned, b);
      }
      pendingBatches := SaturatingSub(pendingBatches, 1);
      pendingBatchBytes := SaturatingSub(pendingBatchBytes, b.bytes);
    }
  }
}
