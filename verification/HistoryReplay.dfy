/**
 Persisting is at least once: a transaction may commit and still be reported as failed. The
 worker then persists each of its batches again, one at a time, with maintenance in between.
 Here is exactly when such a retry changes nothing.
 */
module HistoryReplay {
  import opened Wrappers
  import opened HistoryTables
  import opened HistoryRuns

  /** The value the last sample of the sequence writes for a point, if any does. */
  function LastWrite(samples: seq<Sample>, p: Point): Option<real> {
    if samples == [] then None
    else
      var s := samples[|samples| - 1];
      if s.scope == p.scope && s.timestamp == p.timestamp && p.metric in s.values then Some(s.values[p.metric])
      else LastWrite(samples[..|samples| - 1], p)
  }

  /** A point is written when some sample carries it. */
  lemma {:induction false} LastWriteIsSome(samples: seq<Sample>, p: Point)
    ensures LastWrite(samples, p).Some? <==>
      exists s | s in samples :: s.scope == p.scope && s.timestamp == p.timestamp && p.metric in s.values
  {
    if samples != [] {
      var n := |samples| - 1;
      LastWriteIsSome(samples[..n], p);
      assert samples == samples[..n] + [samples[n]];
    }
  }

  /** Inserting samples leaves exactly their last writes. */
  lemma {:induction false} InsertAllAt(points: map<Key, Row>, samples: seq<Sample>, k: Key)
    ensures var written := if k.resolution == 0 then LastWrite(samples, PointOf(k)) else None;
      && (k in InsertAll(points, samples) <==> k in points || written.Some?)
      && (k in InsertAll(points, samples) ==>
            InsertAll(points, samples)[k] ==
              if written.Some? then Row(written.value, 1, FlagOf(points, k)) else points[k])
  {
    if samples != [] {
      InsertAllAt(points, samples[..|samples| - 1], k);
    }
  }

  lemma {:induction false} RememberAllAt(admitted: map<Point, real>, samples: seq<Sample>, p: Point)
    ensures p in RememberAll(admitted, samples) <==> p in admitted || LastWrite(samples, p).Some?
    ensures p in RememberAll(admitted, samples) ==>
      RememberAll(admitted, samples)[p] ==
        if LastWrite(samples, p).Some? then LastWrite(samples, p).value else admitted[p]
  {
    if samples != [] {
      RememberAllAt(admitted, samples[..|samples| - 1], p);
    }
  }

  /** Whether a measurement at this point passes the cutoff and both tombstone lookups. */
  predicate PointAdmits(db: Tables, cutoff: nat, p: Point) {
    && p.timestamp >= cutoff
    && BucketOf(p.scope, 1, p.timestamp) !in db.tombstones
    && BucketOf(p.scope, 2, p.timestamp) !in db.tombstones
  }

  /** Admission drops whole timestamps, so it keeps the last write of every point it lets through. */
  lemma {:induction false} AdmittedLastWrite(db: Tables, cutoff: nat, samples: seq<Sample>, p: Point)
    ensures LastWrite(Admitted(db, cutoff, samples), p) ==
      if PointAdmits(db, cutoff, p) then LastWrite(samples, p) else None
  {
    if samples != [] {
      AdmittedLastWrite(db, cutoff, samples[..|samples| - 1], p);
    }
  }

  /** The later part of a transaction overwrites the earlier one. */
  lemma {:induction false} LastWriteOfParts(a: seq<Sample>, b: seq<Sample>, p: Point)
    ensures LastWrite(a + b, p) == if LastWrite(b, p).Some? then LastWrite(b, p) else LastWrite(a, p)
    decreases |b|
  {
    if b == [] {
      assert a + b == a;
    } else {
      var n := |b| - 1;
      assert (a + b)[..|a + b| - 1] == a + b[..n];
      LastWriteOfParts(a, b[..n], p);
    }
  }

  lemma CutoffMonotone(clock: U64, clock': U64)
    requires clock <= clock'
    ensures RawAdmissionCutoff(clock) <= RawAdmissionCutoff(clock')
  {
    var raised, raised' := SaturatingSub(clock, RAW_RETENTION_MILLIS), SaturatingSub(clock', RAW_RETENTION_MILLIS);
    RoundedMonotone(Min(raised + (FIVE_MINUTE_BUCKET_MILLIS - 1), U64_MAX),
      Min(raised' + (FIVE_MINUTE_BUCKET_MILLIS - 1), U64_MAX));
  }

  lemma RoundedMonotone(a: nat, b: nat)
    requires a <= b
    ensures a / FIVE_MINUTE_BUCKET_MILLIS * FIVE_MINUTE_BUCKET_MILLIS
      <= b / FIVE_MINUTE_BUCKET_MILLIS * FIVE_MINUTE_BUCKET_MILLIS
  {
  }

  lemma RegroupedIsStored(db: Tables, admitted: map<Point, real>, deleted: set<Bucket>, again: seq<Sample>, k: Key)
    requires Midway(db, admitted, db.points, admitted, again)
    requires NothingLost(db.points, admitted, deleted) && RollUpsExact(db.points, admitted)
    requires forall b | b in deleted :: Sealed(db, b)
    requires Regrouped(db.points, TouchedBuckets(again), k)
    ensures k in db.points && AggregateRow(db.points, BucketFor(k), k.metric) == db.points[k]
  {
    var b := BucketFor(k);
    TouchedRowExact(db, admitted, db.points, admitted, again, b, k.metric);
    CountedIsStored(db.points, admitted, deleted, b, k.metric);
    var s := TouchedBy(again, b);
    assert Open(db, s) && !Sealed(db, b);
    assert RowExact(db.points, admitted, k);
  }

  /** With nothing new inserted, aggregating again changes nothing. */
  lemma {:induction false} RollUpIsNoop(db: Tables, admitted: map<Point, real>, deleted: set<Bucket>,
      again: seq<Sample>)
    requires Midway(db, admitted, db.points, admitted, again)
    requires NothingLost(db.points, admitted, deleted) && RollUpsExact(db.points, admitted)
    requires forall b | b in deleted :: Sealed(db, b)
    ensures RollUp(db.points, TouchedBuckets(again)) == db.points
  {
    var points, touched := db.points, TouchedBuckets(again);
    forall k ensures k in RollUp(points, touched) <==> k in points
      ensures k in points ==> RollUp(points, touched)[k] == points[k]
    {
      RollUpAt(points, touched, k);
      if Regrouped(points, touched, k) {
        RegroupedIsStored(db, admitted, deleted, again, k);
      }
    }
  }

  lemma RestoreIsNoop(w: World, again: seq<Sample>)
    requires Inv(w) && forall s | s in again :: Open(w.db, s)
    requires InsertAll(w.db.points, again) == w.db.points && RememberAll(w.admitted, again) == w.admitted
    ensures StoredPoints(w.db.points, again) == w.db.points
  {
    hide RollUp, TouchedBuckets, InsertAll, RememberAll;
    InsertFacts(w.db.points, w.admitted, again);
    RollUpIsNoop(w.db, w.admitted, w.deleted, again);
  }

  // ---------------------------------------------------------------------------
  // When a batch changes nothing
  // ---------------------------------------------------------------------------

  /** What the transaction stores for a point it writes. */
  lemma StoredWrite(points: map<Key, Row>, adm: seq<Sample>, p: Point)
    requires LastWrite(adm, p).Some?
    ensures var stored := StoredPoints(points, adm);
      RawKey(p) in stored && stored[RawKey(p)].value == LastWrite(adm, p).value
  {
    hide InsertAll, TouchedBuckets, StoredPoints, LastWrite;
    var k := RawKey(p);
    InsertAllAt(points, adm, k);
    StoredAt(points, adm, k);
    if BucketFor(k) in TouchedBuckets(adm) {
      var s := TouchedBy(adm, BucketFor(k));
    }
  }

  /** A point that can still be written lies in buckets that are not blocked. */
  lemma AdmittedPointIsOpen(db: Tables, now: U64, p: Point)
    requires PointAdmits(db, AdmissionCutoff(db, now), p)
    ensures !Blocked(db, BucketOf(p.scope, 1, p.timestamp)) && !Blocked(db, BucketOf(p.scope, 2, p.timestamp))
  {
    hide RawAdmissionCutoff;
  }

  /** The history already holds the value the batch would write, at every point it still admits. */
  ghost predicate AlreadyThere(w: World, now: U64, samples: seq<Sample>) {
    forall p | PointAdmits(w.db, AdmissionCutoff(w.db, now), p) && LastWrite(samples, p).Some? ::
      p in w.admitted && w.admitted[p] == LastWrite(samples, p).value
  }

  lemma ThereIsStored(w: World, now: U64, samples: seq<Sample>, p: Point)
    requires RawAgrees(w.db.points, w.admitted) && GoneIsBlocked(w.db, w.db.points, w.admitted)
    requires AlreadyThere(w, now, samples)
    requires LastWrite(Admitted(w.db, AdmissionCutoff(w.db, now), samples), p).Some?
    ensures p in w.admitted && RawKey(p) in w.db.points
    ensures var v := LastWrite(Admitted(w.db, AdmissionCutoff(w.db, now), samples), p).value;
      w.admitted[p] == v && w.db.points[RawKey(p)].value == v && w.db.points[RawKey(p)].samples == 1
  {
    hide LastWrite, AdmissionCutoff, Blocked;
    AdmittedLastWrite(w.db, AdmissionCutoff(w.db, now), samples, p);
    AdmittedPointIsOpen(w.db, now, p);
  }

  lemma ThereMeansNoop(w: World, now: U64, samples: seq<Sample>)
    requires Inv(w) && AlreadyThere(w, now, samples)
    ensures var adm := Admitted(w.db, AdmissionCutoff(w.db, now), samples);
      StoredPoints(w.db.points, adm) == w.db.points && RememberAll(w.admitted, adm) == w.admitted
  {
    hide StoredPoints, InsertAll, RememberAll, LastWrite, AdmissionCutoff, Admitted, AlreadyThere, Open;
    var points, adm := w.db.points, Admitted(w.db, AdmissionCutoff(w.db, now), samples);
    forall k
      ensures (k in InsertAll(points, adm) <==> k in points)
        && (k in points ==> InsertAll(points, adm)[k] == points[k])
    {
      InsertAllAt(points, adm, k);
      if k.resolution == 0 && LastWrite(adm, PointOf(k)).Some? {
        ThereIsStored(w, now, samples, PointOf(k));
      }
    }
    assert InsertAll(points, adm) == points;
    var a := w.admitted;
    forall p ensures (p in RememberAll(a, adm) <==> p in a) && (p in a ==> RememberAll(a, adm)[p] == a[p]) {
      RememberAllAt(a, adm, p);
      if LastWrite(adm, p).Some? {
        ThereIsStored(w, now, samples, p);
      }
    }
    assert RememberAll(a, adm) == a;
    AdmittedAreOpen(w.db, now, samples);
    RestoreIsNoop(w, adm);
  }

  lemma NoopMeansThere(w: World, now: U64, samples: seq<Sample>)
    requires RawAgrees(w.db.points, w.admitted)
    requires StoredPoints(w.db.points, Admitted(w.db, AdmissionCutoff(w.db, now), samples)) == w.db.points
    ensures AlreadyThere(w, now, samples)
  {
    hide StoredPoints, LastWrite, AdmissionCutoff, Admitted;
    var cutoff := AdmissionCutoff(w.db, now);
    forall p | PointAdmits(w.db, cutoff, p) && LastWrite(samples, p).Some?
      ensures p in w.admitted && w.admitted[p] == LastWrite(samples, p).value
    {
      AdmittedLastWrite(w.db, cutoff, samples, p);
      StoredWrite(w.db.points, Admitted(w.db, cutoff, samples), p);
      assert PointOf(RawKey(p)) == p;
    }
  }

  /**
   In any state that keeps the invariant, a batch that commits changes nothing exactly when
   the history already holds its value at every point it admits.
   */
  lemma PersistIsNoopIff(w: World, now: U64, samples: seq<Sample>)
    requires Inv(w) && Persist(w.db, now, samples).Some?
    ensures Persist(w.db, now, samples) == Some(w.db) <==> AlreadyThere(w, now, samples)
    ensures AlreadyThere(w, now, samples) ==> Apply(w, PersistBatches(now, samples)) == w
  {
    hide Inv, AlreadyThere, StoredPoints, RememberAll, Faults, AdmissionCutoff, Admitted;
    if AlreadyThere(w, now, samples) {
      ThereMeansNoop(w, now, samples);
    }
    if Persist(w.db, now, samples) == Some(w.db) {
      InvHasRaw(w);
      NoopMeansThere(w, now, samples);
    }
  }

  lemma InvHasRaw(w: World)
    requires Inv(w)
    ensures RawAgrees(w.db.points, w.admitted)
  {
  }

  // ---------------------------------------------------------------------------
  // Maintenance between the commit and the retry
  // ---------------------------------------------------------------------------

  predicate IsMaintenance(steps: seq<Step>) {
    forall s | s in steps :: !s.PersistBatches?
  }

  /** Maintenance forgets nothing: the history stays, blocked buckets stay blocked, the floor only rises. */
  ghost predicate Follows(w: World, w': World) {
    && w'.admitted == w.admitted && Inv(w')
    && DecodeFloor(w.db.evidence) <= DecodeFloor(w'.db.evidence)
    && forall b | Blocked(w.db, b) :: Blocked(w'.db, b)
  }

  lemma DeletesStaySealed(w: World, page: set<Bucket>, at: nat, b: Bucket)
    requires Blocked(w.db, b)
    ensures Blocked(Deletes(w, page, at).db, b)
  {
    hide TombstonesOf;
  }

  lemma RetireStaysSealed(w: World, page: set<Bucket>, clock: U64)
    requires TombstonesAligned(w.db.tombstones) && Retire(w.db, page, RawAdmissionCutoff(clock)).Some?
    requires forall t | t in page :: t in w.db.tombstones && t.timestamp < RawAdmissionCutoff(clock)
    ensures var db := Retire(w.db, page, RawAdmissionCutoff(clock)).value;
      && DecodeFloor(w.db.evidence) <= DecodeFloor(db.evidence)
      && forall b | Blocked(w.db, b) :: Blocked(db, b)
  {
    hide Blocked, TombstonesAligned;
    var cutoff := RawAdmissionCutoff(clock);
    hide RawAdmissionCutoff;
    forall b | Blocked(w.db, b) ensures Blocked(Retire(w.db, page, cutoff).value, b) {
      RetireKeepsBlocked(w.db, page, cutoff, b);
    }
  }

  lemma MaintenanceStaysSealed(w: World, step: Step)
    requires TombstonesAligned(w.db.tombstones) && !step.PersistBatches?
    ensures var w' := Apply(w, step);
      && w'.admitted == w.admitted && DecodeFloor(w.db.evidence) <= DecodeFloor(w'.db.evidence)
      && forall b | Blocked(w.db, b) :: Blocked(w'.db, b)
  {
    hide Blocked, TombstonesAligned, EntombAll, RetentionPage, CapPage, RawAdmissionCutoff, DecodeFloor, EncodeFloor;
    var w' := Apply(w, step);
    match step
    case RetentionChunk(resolution, cutoff, page, at) =>
      forall b | Blocked(w.db, b) ensures Blocked(w'.db, b) { DeletesStaySealed(w, page, at, b); }
    case CapPrune(resolution, page, at) =>
      forall b | Blocked(w.db, b) ensures Blocked(w'.db, b) { DeletesStaySealed(w, page, at, b); }
    case RetireTombstones(resolution, deletedBefore, clock, limit, page) =>
      var cutoff := RawAdmissionCutoff(clock);
      if RetirementPage(w.db, resolution, deletedBefore, cutoff, limit, page) && Retire(w.db, page, cutoff).Some? {
        RetireStaysSealed(w, page, clock);
      }
    case PersistBatches(_, _) =>
  }

  lemma MaintenanceStepFollows(w: World, step: Step)
    requires Inv(w) && !step.PersistBatches?
    ensures Follows(w, Apply(w, step))
  {
    StepKeepsInv(w, step);
    MaintenanceStaysSealed(w, step);
    hide Apply, Blocked;
  }

  lemma {:induction false} MaintenanceFollows(w: World, steps: seq<Step>)
    requires Inv(w) && IsMaintenance(steps)
    ensures Follows(w, Run(w, steps))
  {
    if steps != [] {
      hide Inv, Apply, Blocked;
      var n := |steps| - 1;
      MaintenanceFollows(w, steps[..n]);
      assert steps[n] in steps;
      MaintenanceStepFollows(Run(w, steps[..n]), steps[n]);
    }
  }

  /** What a later retry admits, the commit admitted. */
  lemma AdmittedBefore(w: World, w1: World, w2: World, now: U64, again: U64, p: Point)
    requires Follows(w1, w2) && w1.db.tombstones == w.db.tombstones && w1.db.evidence == w.db.evidence && now <= again
    requires PointAdmits(w2.db, AdmissionCutoff(w2.db, again), p)
    ensures PointAdmits(w.db, AdmissionCutoff(w.db, now), p)
      && AdmissionCutoff(w.db, now) <= AdmissionCutoff(w2.db, again)
  {
    hide RawAdmissionCutoff, Inv, BucketStart, DecodeFloor;
    CutoffMonotone(now, again);
    AdmittedPointIsOpen(w2.db, again, p);
    assert !Blocked(w1.db, BucketOf(p.scope, 1, p.timestamp)) && !Blocked(w1.db, BucketOf(p.scope, 2, p.timestamp));
  }

  /** A sample that faults on the retry faulted on the commit. */
  lemma FaultedBefore(w: World, w1: World, w2: World, now: U64, again: U64, s: Sample)
    requires Follows(w1, w2) && w1.db.tombstones == w.db.tombstones && w1.db.evidence == w.db.evidence && now <= again
    requires Faults(w2.db, AdmissionCutoff(w2.db, again), s)
    ensures Faults(w.db, AdmissionCutoff(w.db, now), s)
  {
    hide RawAdmissionCutoff, Inv, BucketStart, DecodeFloor, Follows, BucketOf;
    CutoffsFollow(w, w1, w2, now, again);
    if Admits(w2.db, AdmissionCutoff(w2.db, again), s) {
      AdmittedBefore(w, w1, w2, now, again, Point(s.scope, s.timestamp, ""));
    }
  }

  lemma CutoffsFollow(w: World, w1: World, w2: World, now: U64, again: U64)
    requires Follows(w1, w2) && w1.db.evidence == w.db.evidence && now <= again
    ensures AdmissionCutoff(w.db, now) <= AdmissionCutoff(w2.db, again)
  {
    hide RawAdmissionCutoff, Inv, DecodeFloor, Blocked;
    CutoffMonotone(now, again);
  }

  // ---------------------------------------------------------------------------
  // Retries
  // ---------------------------------------------------------------------------

  /** On every point the batch still admits, it was the transaction's last writer or agrees with it. */
  ghost predicate AgreesWith(w: World, again: U64, batch: seq<Sample>, whole: seq<Sample>) {
    forall p | PointAdmits(w.db, AdmissionCutoff(w.db, again), p) && LastWrite(batch, p).Some? ::
      LastWrite(batch, p) == LastWrite(whole, p)
  }

  /** After the commit the history holds the transaction's last write of every point it admitted. */
  lemma CommittedValue(w: World, now: U64, whole: seq<Sample>, p: Point)
    requires Persist(w.db, now, whole).Some? && PointAdmits(w.db, AdmissionCutoff(w.db, now), p)
      && LastWrite(whole, p).Some?
    ensures var w1 := Apply(w, PersistBatches(now, whole));
      p in w1.admitted && w1.admitted[p] == LastWrite(whole, p).value
  {
    hide LastWrite, StoredPoints, Faults, RememberAll, AdmissionCutoff, Admitted;
    var cutoff := AdmissionCutoff(w.db, now);
    AdmittedLastWrite(w.db, cutoff, whole, p);
    RememberAllAt(w.admitted, Admitted(w.db, cutoff, whole), p);
  }

  lemma AgreesIffThere(w: World, now: U64, pre: seq<Sample>, batch: seq<Sample>, post: seq<Sample>, w2: World,
      again: U64)
    requires Persist(w.db, now, pre + batch + post).Some? && now <= again
    requires Follows(Apply(w, PersistBatches(now, pre + batch + post)), w2)
    ensures AgreesWith(w2, again, batch, pre + batch + post) <==> AlreadyThere(w2, again, batch)
  {
    hide Apply, Persist, LastWrite, PointAdmits, AdmissionCutoff, Inv, Blocked;
    var whole := pre + batch + post;
    var w1 := Apply(w, PersistBatches(now, whole));
    PersistKeepsSeals(w, now, whole);
    forall p | PointAdmits(w2.db, AdmissionCutoff(w2.db, again), p) && LastWrite(batch, p).Some?
      ensures LastWrite(whole, p).Some? && p in w2.admitted && w2.admitted[p] == LastWrite(whole, p).value
    {
      LastWriteOfParts(pre, batch, p);
      LastWriteOfParts(pre + batch, post, p);
      AdmittedBefore(w, w1, w2, now, again, p);
      CommittedValue(w, now, whole, p);
    }
  }

  lemma PersistKeepsSeals(w: World, now: U64, samples: seq<Sample>)
    ensures var w1 := Apply(w, PersistBatches(now, samples));
      w1.db.tombstones == w.db.tombstones && w1.db.evidence == w.db.evidence
  {
    hide StoredPoints, RememberAll, Faults, Admitted;
  }

  lemma RetryCommits(w: World, now: U64, pre: seq<Sample>, batch: seq<Sample>, post: seq<Sample>, w2: World, again: U64)
    requires Persist(w.db, now, pre + batch + post).Some? && now <= again
    requires Follows(Apply(w, PersistBatches(now, pre + batch + post)), w2)
    ensures Persist(w2.db, again, batch).Some?
  {
    hide Apply, StoredPoints, Faults, AdmissionCutoff, Admitted, Follows;
    var whole := pre + batch + post;
    PersistKeepsSeals(w, now, whole);
    forall s | s in batch ensures !Faults(w2.db, AdmissionCutoff(w2.db, again), s) {
      assert s in whole;
      if Faults(w2.db, AdmissionCutoff(w2.db, again), s) {
        FaultedBefore(w, Apply(w, PersistBatches(now, whole)), w2, now, again, s);
      }
    }
  }

  /**
   A transaction of several batches committed and was reported as failed. After any
   maintenance, and at the same or any later clock reading, persisting one of its batches
   alone commits; and it changes nothing exactly when, on every point it still admits, the
   batch wrote what the whole transaction wrote last.
   */
  lemma {:induction false} RetryChangesNothingIff(steps: seq<Step>, now: U64, pre: seq<Sample>, batch: seq<Sample>,
      post: seq<Sample>, between: seq<Step>, again: U64)
    requires now <= again && IsMaintenance(between)
    requires Persist(Run(Fresh(), steps).db, now, pre + batch + post).Some?
    ensures var w1 := Apply(Run(Fresh(), steps), PersistBatches(now, pre + batch + post)); var w2 := Run(w1, between);
      && Persist(w2.db, again, batch).Some?
      && (Persist(w2.db, again, batch) == Some(w2.db) <==> AgreesWith(w2, again, batch, pre + batch + post))
      && (AgreesWith(w2, again, batch, pre + batch + post) ==> Apply(w2, PersistBatches(again, batch)) == w2)
  {
    hide Run, Apply, Persist, Inv, AgreesWith, AlreadyThere, Blocked;
    var w, whole := Run(Fresh(), steps), pre + batch + post;
    RunsKeepInv(steps);
    StepKeepsInv(w, PersistBatches(now, whole));
    var w1 := Apply(w, PersistBatches(now, whole));
    MaintenanceFollows(w1, between);
    var w2 := Run(w1, between);
    RetryCommits(w, now, pre, batch, post, w2, again);
    PersistIsNoopIff(w2, again, batch);
    AgreesIffThere(w, now, pre, batch, post, w2, again);
  }

  /** A transaction of one batch can always be retried without changing anything. */
  lemma {:induction false} ReplayIsHarmless(steps: seq<Step>, now: U64, samples: seq<Sample>, between: seq<Step>,
      again: U64)
    requires now <= again && IsMaintenance(between)
    requires Persist(Run(Fresh(), steps).db, now, samples).Some?
    ensures var w2 := Run(Apply(Run(Fresh(), steps), PersistBatches(now, samples)), between);
      Persist(w2.db, again, samples) == Some(w2.db) && Apply(w2, PersistBatches(again, samples)) == w2
  {
    hide Run, Apply, Persist, LastWrite, PointAdmits;
    assert [] + samples + [] == samples;
    RetryChangesNothingIff(steps, now, [], samples, [], between, again);
  }

  lemma CommitStores(db: Tables, now: U64, samples: seq<Sample>, p: Point)
    requires Persist(db, now, samples).Some? && PointAdmits(db, AdmissionCutoff(db, now), p)
      && LastWrite(samples, p).Some?
    ensures var points := Persist(db, now, samples).value.points;
      RawKey(p) in points && points[RawKey(p)].value == LastWrite(samples, p).value
  {
    hide StoredPoints, LastWrite, Faults, AdmissionCutoff, Admitted;
    AdmittedLastWrite(db, AdmissionCutoff(db, now), samples, p);
    StoredWrite(db.points, Admitted(db, AdmissionCutoff(db, now), samples), p);
  }

  /** Early samples never fault while nothing is blocked. */
  lemma EarlySamplesCommit(db: Tables, samples: seq<Sample>)
    requires db.tombstones == map[] && db.evidence == 0 && forall s | s in samples :: s.timestamp == 60000
    ensures Persist(db, 0, samples).Some? && AdmissionCutoff(db, 0) == 0
  {
    hide StoredPoints, Admitted;
  }

  /**
   Two batches of one transaction that write the same point: the retry of the first puts
   its own, older value back.
   */
  lemma RetryCanRestoreOldValue()
    ensures var a, b := Sample(Server, 60000, map["cpu" := 1.0]), Sample(Server, 60000, map["cpu" := 2.0]);
      var k := Key(Server, 0, 60000, "cpu");
      var w1 := Apply(Fresh(), PersistBatches(0, [a, b])); var w2 := Apply(w1, PersistBatches(0, [a]));
      && k in w1.db.points && w1.db.points[k].value == 2.0
      && k in w2.db.points && w2.db.points[k].value == 1.0
  {
    hide StoredPoints, Persist, BucketStart;
    var a, b := Sample(Server, 60000, map["cpu" := 1.0]), Sample(Server, 60000, map["cpu" := 2.0]);
    var p, db := Point(Server, 60000, "cpu"), Tables(map[], map[], 0);
    EarlySamplesCommit(db, [a, b]);
    CommitStores(db, 0, [a, b], p);
    PersistKeepsSeals(Fresh(), 0, [a, b]);
    var w1 := Apply(Fresh(), PersistBatches(0, [a, b]));
    EarlySamplesCommit(w1.db, [a]);
    CommitStores(w1.db, 0, [a], p);
  }
}
