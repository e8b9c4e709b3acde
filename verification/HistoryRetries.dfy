/**
 Retrying a committed transaction batch by batch. A multi-batch transaction that committed
 and was reported as failed is persisted again one batch at a time, with maintenance between
 the retries. The retries end in the tables the commit and the maintenance alone would have
 left exactly when, for every point, the last retry that still admits it writes what the
 whole transaction wrote last.
 */
module HistoryRetries {
  import opened Wrappers
  import opened HistoryTables
  import opened HistoryRuns
  import opened HistoryReplay

  // ---------------------------------------------------------------------------
  // Tables that differ in values only
  // ---------------------------------------------------------------------------

  /** The same rows, tombstones, floor and deletions; values may differ. */
  ghost predicate Twins(w: World, w': World) {
    && w.db.tombstones == w'.db.tombstones && w.db.evidence == w'.db.evidence && w.deleted == w'.deleted
    && w.db.points.Keys == w'.db.points.Keys
  }

  lemma TwinsFlagAlike(w: World, w': World, k: Key)
    requires Inv(w) && Inv(w') && Twins(w, w') && k in w.db.points
    ensures k in w'.db.points && w.db.points[k].latest == w'.db.points[k].latest
  {
    hide RawAgrees, GoneIsBlocked, RollUpsExact, NothingLost, DeletedStaysDeleted, TombstonesAligned;
    assert k in w'.db.points.Keys;
    assert forall j :: j in w.db.points <==> j in w'.db.points;
  }

  /** The history determines every value, so twins with one history are equal. */
  lemma TwinsWithOneHistory(w: World, w': World)
    requires Inv(w) && Inv(w') && Twins(w, w') && w.admitted == w'.admitted
    ensures w == w'
  {
    hide GoneIsBlocked, NothingLost, DeletedStaysDeleted, TombstonesAligned, LatestExact;
    forall k | k in w.db.points ensures k in w'.db.points && w.db.points[k] == w'.db.points[k] {
      TwinsFlagAlike(w, w', k);
    }
    assert w.db.points == w'.db.points;
  }

  lemma TwinsExpireAlike(w: World, w': World, resolution: nat, cutoff: nat)
    requires Twins(w, w')
    ensures Expired(w.db.points, resolution, cutoff) == Expired(w'.db.points, resolution, cutoff)
  {
    assert forall k :: k in w.db.points <==> k in w'.db.points;
    assert BucketsAt(w.db.points, resolution) == BucketsAt(w'.db.points, resolution);
  }

  lemma TwinsPruneAlike(w: World, w': World, resolution: nat)
    requires Inv(w) && Inv(w') && Twins(w, w')
    ensures NotLatest(w.db.points, resolution) == NotLatest(w'.db.points, resolution)
  {
    hide Inv;
    forall k | k in w.db.points || k in w'.db.points
      ensures k in w.db.points && k in w'.db.points && w.db.points[k].latest == w'.db.points[k].latest
    {
      assert k in w.db.points.Keys;
      TwinsFlagAlike(w, w', k);
    }
  }

  lemma TwinsDeleteAlike(w: World, w': World, page: set<Bucket>, at: nat)
    requires Twins(w, w')
    ensures Twins(Deletes(w, page, at), Deletes(w', page, at))
  {
    hide EntombAll;
    assert forall k :: k in w.db.points <==> k in w'.db.points;
  }

  /** Maintenance looks at no value, so it treats twins alike. */
  lemma MaintenanceKeepsTwins(w: World, w': World, step: Step)
    requires Inv(w) && Inv(w') && Twins(w, w') && !step.PersistBatches?
    ensures Twins(Apply(w, step), Apply(w', step))
    ensures Apply(w, step).admitted == w.admitted && Apply(w', step).admitted == w'.admitted
  {
    hide Inv, Expired, NotLatest, Deletes, OldestFirst, ExpiredTombstones;
    match step
    case RetentionChunk(resolution, cutoff, page, at) =>
      TwinsExpireAlike(w, w', resolution, cutoff);
      TwinsDeleteAlike(w, w', page, at);
      HistoryKept(w, page, at);
      HistoryKept(w', page, at);
    case CapPrune(resolution, page, at) =>
      TwinsPruneAlike(w, w', resolution);
      TwinsDeleteAlike(w, w', page, at);
      HistoryKept(w, page, at);
      HistoryKept(w', page, at);
    case RetireTombstones(resolution, deletedBefore, clock, limit, page) =>
    case PersistBatches(_, _) =>
  }

  lemma HistoryKept(w: World, page: set<Bucket>, at: nat)
    ensures Deletes(w, page, at).admitted == w.admitted
  {
  }

  lemma {:induction false} RunsKeepTwins(w: World, w': World, steps: seq<Step>)
    requires Inv(w) && Inv(w') && Twins(w, w') && IsMaintenance(steps)
    ensures Inv(Run(w, steps)) && Inv(Run(w', steps)) && Twins(Run(w, steps), Run(w', steps))
    ensures Run(w, steps).admitted == w.admitted && Run(w', steps).admitted == w'.admitted
  {
    if steps != [] {
      hide Inv, Apply, Twins;
      var n := |steps| - 1;
      assert steps[n] in steps;
      RunsKeepTwins(w, w', steps[..n]);
      MaintenanceKeepsTwins(Run(w, steps[..n]), Run(w', steps[..n]), steps[n]);
      StepKeepsInv(Run(w, steps[..n]), steps[n]);
      StepKeepsInv(Run(w', steps[..n]), steps[n]);
    }
  }

  // ---------------------------------------------------------------------------
  // Rewriting known points
  // ---------------------------------------------------------------------------

  /** A batch that admits known points only. */
  ghost predicate WritesKnownPoints(w: World, now: U64, samples: seq<Sample>) {
    forall p | PointAdmits(w.db, AdmissionCutoff(w.db, now), p) && LastWrite(samples, p).Some? :: p in w.admitted
  }

  lemma RawKeyIsStored(w: World, now: U64, samples: seq<Sample>, p: Point)
    requires GoneIsBlocked(w.db, w.db.points, w.admitted) && WritesKnownPoints(w, now, samples)
    requires LastWrite(Admitted(w.db, AdmissionCutoff(w.db, now), samples), p).Some?
    ensures p in w.admitted && RawKey(p) in w.db.points
  {
    hide LastWrite, AdmissionCutoff, Blocked;
    AdmittedLastWrite(w.db, AdmissionCutoff(w.db, now), samples, p);
    AdmittedPointIsOpen(w.db, now, p);
  }

  /** A roll-up the transaction leaves was there before. */
  lemma RollUpWasStored(w: World, w': World, k: Key)
    requires Inv(w) && Inv(w') && w'.deleted == w.deleted && w'.admitted.Keys == w.admitted.Keys
    requires k in w'.db.points && k.resolution != 0
    ensures k in w.db.points
  {
    hide RawAgrees, GoneIsBlocked, LatestExact, TombstonesAligned, RollUpsExact;
    var b := BucketFor(k);
    SameCounts(w.admitted, w'.admitted, b, k.metric);
    RowOf(w', k);
    CountedIsStored(w.db.points, w.admitted, w.deleted, b, k.metric);
  }

  lemma RowOf(w: World, k: Key)
    requires RollUpsExact(w.db.points, w.admitted) && k in w.db.points && k.resolution != 0
    ensures 1 <= k.resolution <= 2 && Aligned(BucketFor(k)) && CountIn(w.admitted, BucketFor(k), k.metric) > 0
  {
    assert RowExact(w.db.points, w.admitted, k);
  }

  lemma SameCounts(a: map<Point, real>, b: map<Point, real>, bucket: Bucket, metric: Metric)
    requires a.Keys == b.Keys
    ensures CountIn(a, bucket, metric) == CountIn(b, bucket, metric)
  {
    SameCount(a, b, bucket.scope, metric, bucket.timestamp, bucket.timestamp + Width(bucket.resolution));
  }

  lemma {:induction false} SameCount(a: map<Point, real>, b: map<Point, real>, scope: Scope, metric: Metric, lo: nat,
      hi: nat)
    requires a.Keys == b.Keys
    ensures Count(a, scope, metric, lo, hi) == Count(b, scope, metric, lo, hi)
  {
    if lo < hi {
      SameCount(a, b, scope, metric, lo, hi - 1);
      assert Point(scope, hi - 1, metric) in a.Keys <==> Point(scope, hi - 1, metric) in b.Keys;
    }
  }

  lemma RewriteStoresSameRaw(w: World, now: U64, samples: seq<Sample>, k: Key)
    requires Inv(w) && WritesKnownPoints(w, now, samples)
    ensures var stored := StoredPoints(w.db.points, Admitted(w.db, AdmissionCutoff(w.db, now), samples));
      (k in w.db.points ==> k in stored) && (k.resolution == 0 && k in stored ==> k in w.db.points)
  {
    hide StoredPoints, InsertAll, TouchedBuckets, LastWrite, AdmissionCutoff, Admitted, WritesKnownPoints;
    var adm := Admitted(w.db, AdmissionCutoff(w.db, now), samples);
    InsertAllAt(w.db.points, adm, k);
    StoredAt(w.db.points, adm, k);
    if k.resolution == 0 {
      if LastWrite(adm, PointOf(k)).Some? {
        RawKeyIsStored(w, now, samples, PointOf(k));
      }
      if BucketFor(k) in TouchedBuckets(adm) {
        var s := TouchedBy(adm, BucketFor(k));
      }
    }
  }

  /** What the history holds after a batch that admits known points only. */
  lemma RewriteHistory(w: World, now: U64, samples: seq<Sample>, p: Point)
    requires WritesKnownPoints(w, now, samples) && Persist(w.db, now, samples).Some?
    ensures var w' := Apply(w, PersistBatches(now, samples));
      && (p in w'.admitted <==> p in w.admitted)
      && (p in w.admitted ==>
            w'.admitted[p] ==
              if PointAdmits(w.db, AdmissionCutoff(w.db, now), p) && LastWrite(samples, p).Some?
              then LastWrite(samples, p).value else w.admitted[p])
  {
    hide StoredPoints, RememberAll, LastWrite, AdmissionCutoff, Admitted, Faults, PointAdmits;
    var cutoff := AdmissionCutoff(w.db, now);
    AdmittedLastWrite(w.db, cutoff, samples, p);
    RememberAllAt(w.admitted, Admitted(w.db, cutoff, samples), p);
  }

  /** Writing known points again changes values only. */
  lemma RewriteMakesTwin(w: World, now: U64, samples: seq<Sample>)
    requires Inv(w) && WritesKnownPoints(w, now, samples) && Persist(w.db, now, samples).Some?
    ensures var w' := Apply(w, PersistBatches(now, samples));
      Inv(w') && Twins(w', w) && w'.admitted.Keys == w.admitted.Keys
  {
    hide Inv, WritesKnownPoints, StoredPoints, AdmissionCutoff, Admitted, RememberAll, Faults;
    var w' := Apply(w, PersistBatches(now, samples));
    StepKeepsInv(w, PersistBatches(now, samples));
    forall p ensures p in w'.admitted <==> p in w.admitted {
      RewriteHistory(w, now, samples, p);
    }
    assert w'.admitted.Keys == w.admitted.Keys;
    forall k ensures k in w'.db.points <==> k in w.db.points {
      RewriteStoresSameRaw(w, now, samples, k);
      if k in w'.db.points && k.resolution != 0 {
        RollUpWasStored(w, w', k);
      }
    }
  }

  // ---------------------------------------------------------------------------
  // Retries
  // ---------------------------------------------------------------------------

  /** One retry: maintenance first, then one batch at some clock. */
  datatype Retry = Retry(between: seq<Step>, again: U64, batch: seq<Sample>)

  /** The run with its retries. */
  function Retried(w: World, retries: seq<Retry>): World {
    if retries == [] then w
    else
      var n := |retries| - 1;
      var r := retries[n];
      Apply(Run(Retried(w, retries[..n]), r.between), PersistBatches(r.again, r.batch))
  }

  /** The same run without its retries. */
  function Maintained(w: World, retries: seq<Retry>): World {
    if retries == [] then w
    else
      var n := |retries| - 1;
      Run(Maintained(w, retries[..n]), retries[n].between)
  }

  /** Every retry is of samples of the transaction, at the commit's clock or later. */
  predicate RetriesOf(retries: seq<Retry>, now: U64, whole: seq<Sample>) {
    forall r | r in retries :: now <= r.again && IsMaintenance(r.between) && forall s | s in r.batch :: s in whole
  }

  /** The last of the retries writes the point and still admits it, by tombstones, floor and clock. */
  ghost predicate LastAdmits(w: World, retries: seq<Retry>, p: Point)
    requires retries != []
  {
    var r, m := retries[|retries| - 1], Maintained(w, retries);
    PointAdmits(m.db, AdmissionCutoff(m.db, r.again), p) && LastWrite(r.batch, p).Some?
  }

  /** What the last retry that writes and still admits the point writes. */
  ghost function LastRetry(w: World, retries: seq<Retry>, p: Point): Option<real> {
    if retries == [] then None
    else if LastAdmits(w, retries, p) then LastWrite(retries[|retries| - 1].batch, p)
    else LastRetry(w, retries[..|retries| - 1], p)
  }

  /** What holds after the commit and any number of retries. */
  ghost predicate Agree(w: World, now: U64, whole: seq<Sample>, w1: World, retries: seq<Retry>) {
    var e, m := Retried(w1, retries), Maintained(w1, retries);
    && Inv(e) && Inv(m) && Twins(e, m) && Follows(w1, m)
    && m.admitted == w1.admitted && e.admitted.Keys == w1.admitted.Keys
    && (forall p | p in w1.admitted :: e.admitted[p] ==
          if LastRetry(w1, retries, p).Some? then LastRetry(w1, retries, p).value else w1.admitted[p])
    && (forall p | LastRetry(w1, retries, p).Some? ::
          LastWrite(whole, p).Some? && p in w1.admitted && w1.admitted[p] == LastWrite(whole, p).value)
  }

  lemma TwinsAdmitAlike(w: World, w': World, again: U64)
    requires Twins(w, w')
    ensures AdmissionCutoff(w.db, again) == AdmissionCutoff(w'.db, again)
    ensures forall p :: PointAdmits(w.db, AdmissionCutoff(w.db, again), p) <==>
      PointAdmits(w'.db, AdmissionCutoff(w'.db, again), p)
    ensures forall s :: Faults(w.db, AdmissionCutoff(w.db, again), s) <==>
      Faults(w'.db, AdmissionCutoff(w'.db, again), s)
  {
    hide RawAdmissionCutoff, BucketOf;
  }

  lemma RetryStillCommits(w: World, now: U64, whole: seq<Sample>, e: World, m: World, r: Retry)
    requires Persist(w.db, now, whole).Some? && now <= r.again && forall s | s in r.batch :: s in whole
    requires Follows(Apply(w, PersistBatches(now, whole)), m) && Twins(e, m)
    ensures Persist(e.db, r.again, r.batch).Some?
  {
    hide Apply, StoredPoints, Faults, AdmissionCutoff, Admitted, Follows, Twins;
    TwinsAdmitAlike(e, m, r.again);
    PersistKeepsSeals(w, now, whole);
    forall s | s in r.batch ensures !Faults(m.db, AdmissionCutoff(m.db, r.again), s) {
      if Faults(m.db, AdmissionCutoff(m.db, r.again), s) {
        FaultedBefore(w, Apply(w, PersistBatches(now, whole)), m, now, r.again, s);
      }
    }
  }

  /** What a retry writes, the transaction wrote and the history holds. */
  lemma RetriedWasCommitted(w: World, now: U64, whole: seq<Sample>, m: World, r: Retry, p: Point)
    requires Persist(w.db, now, whole).Some? && now <= r.again && forall s | s in r.batch :: s in whole
    requires Follows(Apply(w, PersistBatches(now, whole)), m)
    requires PointAdmits(m.db, AdmissionCutoff(m.db, r.again), p) && LastWrite(r.batch, p).Some?
    ensures var w1 := Apply(w, PersistBatches(now, whole));
      LastWrite(whole, p).Some? && p in w1.admitted && w1.admitted[p] == LastWrite(whole, p).value
  {
    hide Apply, Persist, LastWrite, PointAdmits, AdmissionCutoff, Follows;
    LastWriteIsSome(r.batch, p);
    LastWriteIsSome(whole, p);
    PersistKeepsSeals(w, now, whole);
    AdmittedBefore(w, Apply(w, PersistBatches(now, whole)), m, now, r.again, p);
    CommittedValue(w, now, whole, p);
  }

  lemma FollowsComposes(a: World, b: World, c: World)
    requires Follows(a, b) && Follows(b, c)
    ensures Follows(a, c)
  {
    hide Inv, Blocked;
  }

  /** The maintenance before a retry. */
  lemma AgreeAfterMaintenance(w: World, now: U64, whole: seq<Sample>, w1: World, before: seq<Retry>, between: seq<Step>)
    requires Agree(w, now, whole, w1, before) && IsMaintenance(between)
    ensures var e, m := Run(Retried(w1, before), between), Run(Maintained(w1, before), between);
      && Inv(e) && Inv(m) && Twins(e, m) && Follows(w1, m)
      && m.admitted == w1.admitted && e.admitted == Retried(w1, before).admitted
  {
    hide Inv, Twins, Follows, Run, Retried, Maintained, LastRetry, LastWrite;
    RunsKeepTwins(Retried(w1, before), Maintained(w1, before), between);
    MaintenanceFollows(Maintained(w1, before), between);
    FollowsComposes(w1, Maintained(w1, before), Run(Maintained(w1, before), between));
  }

  lemma RetryKnowsItsPoints(w: World, now: U64, whole: seq<Sample>, e: World, m: World, r: Retry)
    requires Persist(w.db, now, whole).Some? && now <= r.again && forall s | s in r.batch :: s in whole
    requires Follows(Apply(w, PersistBatches(now, whole)), m) && Twins(e, m)
    requires e.admitted.Keys == Apply(w, PersistBatches(now, whole)).admitted.Keys
    ensures WritesKnownPoints(e, r.again, r.batch)
  {
    hide Apply, Persist, LastWrite, PointAdmits, AdmissionCutoff, Follows, Twins;
    TwinsAdmitAlike(e, m, r.again);
    forall p | PointAdmits(e.db, AdmissionCutoff(e.db, r.again), p) && LastWrite(r.batch, p).Some?
      ensures p in e.admitted
    {
      RetriedWasCommitted(w, now, whole, m, r, p);
      assert p in e.admitted.Keys;
    }
  }

  lemma TwinsCompose(a: World, b: World, c: World)
    requires Twins(a, b) && Twins(b, c)
    ensures Twins(a, c)
  {
  }

  /** One more retry sets the history of exactly the points it writes and still admits. */
  lemma RetrySetsHistory(w: World, now: U64, whole: seq<Sample>, w1: World, retries: seq<Retry>, p: Point)
    requires retries != [] && w1 == Apply(w, PersistBatches(now, whole)) && Persist(w.db, now, whole).Some?
    requires var n, r := |retries| - 1, retries[|retries| - 1];
      && Agree(w, now, whole, w1, retries[..n]) && now <= r.again && IsMaintenance(r.between)
      && (forall s | s in r.batch :: s in whole)
    ensures var e := Retried(w1, retries);
      && (p in e.admitted <==> p in w1.admitted)
      && (p in w1.admitted ==>
            e.admitted[p] ==
              if LastRetry(w1, retries, p).Some? then LastRetry(w1, retries, p).value else w1.admitted[p])
      && (LastRetry(w1, retries, p).Some? ==>
            LastWrite(whole, p).Some? && p in w1.admitted && w1.admitted[p] == LastWrite(whole, p).value)
  {
    var n, r := |retries| - 1, retries[|retries| - 1];
    var before := retries[..n];
    var e, m := Run(Retried(w1, before), r.between), Run(Maintained(w1, before), r.between);
    assert Maintained(w1, retries) == m && Retried(w1, retries) == Apply(e, PersistBatches(r.again, r.batch));
    assert LastRetry(w1, retries, p) ==
      if LastAdmits(w1, retries, p) then LastWrite(r.batch, p) else LastRetry(w1, before, p);
    AgreeAfterMaintenance(w, now, whole, w1, before, r.between);
    hide Apply, Run, Persist, LastWrite, PointAdmits, AdmissionCutoff, Follows, Twins, Inv;
    hide Retried, Maintained, LastRetry, WritesKnownPoints;
    assert p in Retried(w1, before).admitted.Keys <==> p in w1.admitted.Keys;
    RetryStillCommits(w, now, whole, e, m, r);
    RetryKnowsItsPoints(w, now, whole, e, m, r);
    TwinsAdmitAlike(e, m, r.again);
    RewriteHistory(e, r.again, r.batch, p);
    if LastAdmits(w1, retries, p) {
      RetriedWasCommitted(w, now, whole, m, r, p);
    }
  }

  lemma RetryKeepsTwins(w: World, now: U64, whole: seq<Sample>, w1: World, retries: seq<Retry>)
    requires retries != [] && w1 == Apply(w, PersistBatches(now, whole)) && Persist(w.db, now, whole).Some?
    requires var n, r := |retries| - 1, retries[|retries| - 1];
      && Agree(w, now, whole, w1, retries[..n]) && now <= r.again && IsMaintenance(r.between)
      && (forall s | s in r.batch :: s in whole)
    ensures var e, m := Retried(w1, retries), Maintained(w1, retries);
      && Inv(e) && Inv(m) && Twins(e, m) && Follows(w1, m)
      && m.admitted == w1.admitted && e.admitted.Keys == w1.admitted.Keys
  {
    var n, r := |retries| - 1, retries[|retries| - 1];
    var before := retries[..n];
    var e, m := Run(Retried(w1, before), r.between), Run(Maintained(w1, before), r.between);
    assert Maintained(w1, retries) == m && Retried(w1, retries) == Apply(e, PersistBatches(r.again, r.batch));
    AgreeAfterMaintenance(w, now, whole, w1, before, r.between);
    hide Apply, Run, Persist, LastWrite, Follows, Twins, Inv, Retried, Maintained, LastRetry, WritesKnownPoints;
    RetryStillCommits(w, now, whole, e, m, r);
    RetryKnowsItsPoints(w, now, whole, e, m, r);
    RewriteMakesTwin(e, r.again, r.batch);
    TwinsCompose(Retried(w1, retries), e, m);
  }

  lemma CommitAgrees(w: World, now: U64, whole: seq<Sample>, w1: World)
    requires Inv(w1)
    ensures Agree(w, now, whole, w1, [])
  {
    hide Inv, Blocked;
  }

  lemma {:induction false} RetriesAgree(w: World, now: U64, whole: seq<Sample>, retries: seq<Retry>)
    requires Inv(w) && Persist(w.db, now, whole).Some? && RetriesOf(retries, now, whole)
    ensures Agree(w, now, whole, Apply(w, PersistBatches(now, whole)), retries)
  {
    var w1 := Apply(w, PersistBatches(now, whole));
    hide Inv, Apply, Persist, Twins, Follows, Run, Retried, Maintained, LastRetry, LastWrite;
    if retries == [] {
      StepKeepsInv(w, PersistBatches(now, whole));
      CommitAgrees(w, now, whole, w1);
    } else {
      var n := |retries| - 1;
      assert retries[n] in retries;
      RetriesAgree(w, now, whole, retries[..n]);
      RetryKeepsTwins(w, now, whole, w1, retries);
      forall p
        ensures p in w1.admitted ==>
          && p in Retried(w1, retries).admitted
          && Retried(w1, retries).admitted[p] ==
             if LastRetry(w1, retries, p).Some? then LastRetry(w1, retries, p).value else w1.admitted[p]
        ensures LastRetry(w1, retries, p).Some? ==>
          LastWrite(whole, p).Some? && p in w1.admitted && w1.admitted[p] == LastWrite(whole, p).value
      {
        RetrySetsHistory(w, now, whole, w1, retries, p);
      }
    }
  }

  // ---------------------------------------------------------------------------
  // The theorems
  // ---------------------------------------------------------------------------

  /** Each retry commits, whatever the ones before it did. */
  lemma {:induction false} EveryRetryCommits(steps: seq<Step>, now: U64, whole: seq<Sample>, retries: seq<Retry>,
      i: nat)
    requires Persist(Run(Fresh(), steps).db, now, whole).Some? && RetriesOf(retries, now, whole) && i < |retries|
    ensures var w1 := Apply(Run(Fresh(), steps), PersistBatches(now, whole)); var r := retries[i];
      Persist(Run(Retried(w1, retries[..i]), r.between).db, r.again, r.batch).Some?
  {
    hide Run, Apply, Persist, Inv, Twins, Follows, Retried, Maintained;
    var w, r, before := Run(Fresh(), steps), retries[i], retries[..i];
    var w1 := Apply(w, PersistBatches(now, whole));
    assert r in retries && forall x | x in before :: x in retries;
    RunsKeepInv(steps);
    RetriesAgree(w, now, whole, before);
    AgreeAfterMaintenance(w, now, whole, w1, before, r.between);
    RetryStillCommits(w, now, whole, Run(Retried(w1, before), r.between), Run(Maintained(w1, before), r.between), r);
  }

  /** What the last retry to write a point wrote is what the transaction wrote last. */
  ghost predicate RetriesAgreeAt(w1: World, retries: seq<Retry>, whole: seq<Sample>, p: Point) {
    LastRetry(w1, retries, p).Some? ==> LastRetry(w1, retries, p) == LastWrite(whole, p)
  }

  /**
   A transaction committed and was reported as failed; any of its batches are then retried,
   any number of times and in any order, with any maintenance in between. The run ends as the
   same maintenance without the retries would have ended exactly when every point whose last
   admitted retry wrote it got the transaction's last value; and each raw row still stored has
   its committed value exactly when that holds of its point.
   */
  lemma {:induction false} RetriesRestoreCommitIff(steps: seq<Step>, now: U64, whole: seq<Sample>, retries: seq<Retry>)
    requires Persist(Run(Fresh(), steps).db, now, whole).Some? && RetriesOf(retries, now, whole)
    ensures var w1 := Apply(Run(Fresh(), steps), PersistBatches(now, whole));
      var e, m := Retried(w1, retries), Maintained(w1, retries);
      && (e == m <==> forall p :: RetriesAgreeAt(w1, retries, whole, p))
      && e.db.points.Keys == m.db.points.Keys
      && forall p | RawKey(p) in m.db.points :: RawKey(p) in e.db.points &&
           (e.db.points[RawKey(p)].value == m.db.points[RawKey(p)].value <==> RetriesAgreeAt(w1, retries, whole, p))
  {
    var w := Run(Fresh(), steps);
    var w1 := Apply(w, PersistBatches(now, whole));
    RunsKeepInv(steps);
    RetriesAgree(w, now, whole, retries);
    var e, m := Retried(w1, retries), Maintained(w1, retries);
    hide Run, Apply, Persist, Retried, Maintained, LastRetry, LastWrite, Inv, Follows;
    forall p | p in w1.admitted ensures e.admitted[p] == m.admitted[p] <==> RetriesAgreeAt(w1, retries, whole, p) {
    }
    if forall p :: RetriesAgreeAt(w1, retries, whole, p) {
      assert e.admitted == m.admitted;
      TwinsWithOneHistory(e, m);
    }
    if e == m {
      forall p ensures RetriesAgreeAt(w1, retries, whole, p) {
      }
    }
    InvHasRaw(e);
    InvHasRaw(m);
    forall p | RawKey(p) in m.db.points
      ensures RawKey(p) in e.db.points
      ensures e.db.points[RawKey(p)].value == m.db.points[RawKey(p)].value <==> RetriesAgreeAt(w1, retries, whole, p)
    {
      assert RawKey(p) in e.db.points.Keys && PointOf(RawKey(p)) == p;
    }
  }

  function Flattened(retries: seq<Retry>): seq<Sample> {
    if retries == [] then [] else Flattened(retries[..|retries| - 1]) + retries[|retries| - 1].batch
  }

  ghost predicate AdmitsAt(w: World, retries: seq<Retry>, i: nat, p: Point)
    requires i < |retries|
  {
    LastAdmits(w, retries[..i + 1], p)
  }

  /** A point one retry wrote is not refused to a later retry that writes it. */
  ghost predicate Steady(w: World, retries: seq<Retry>) {
    forall p, i: nat, j: nat | i < j < |retries| && AdmitsAt(w, retries, i, p)
                               && LastWrite(retries[j].batch, p).Some? ::
      AdmitsAt(w, retries, j, p)
  }

  lemma {:induction false} SomeRetryAdmits(w: World, retries: seq<Retry>, p: Point) returns (i: nat)
    requires LastRetry(w, retries, p).Some?
    ensures i < |retries| && AdmitsAt(w, retries, i, p)
  {
    var n := |retries| - 1;
    if LastAdmits(w, retries, p) {
      i := n;
      assert retries[..n + 1] == retries;
    } else {
      i := SomeRetryAdmits(w, retries[..n], p);
      assert retries[..n][..i + 1] == retries[..i + 1];
    }
  }

  lemma SteadyPrefix(w: World, retries: seq<Retry>, n: nat)
    requires Steady(w, retries) && n <= |retries|
    ensures Steady(w, retries[..n])
  {
    hide LastAdmits;
    var before := retries[..n];
    forall i: nat, p | i < n ensures AdmitsAt(w, before, i, p) <==> AdmitsAt(w, retries, i, p) {
      assert before[..i + 1] == retries[..i + 1];
    }
  }

  /** In a steady run a refused writer means that no earlier retry wrote the point. */
  lemma RefusedMeansUnwritten(w: World, retries: seq<Retry>, p: Point)
    requires Steady(w, retries) && retries != [] && !LastAdmits(w, retries, p)
    requires LastWrite(retries[|retries| - 1].batch, p).Some?
    ensures LastRetry(w, retries[..|retries| - 1], p).None?
  {
    hide LastAdmits, LastWrite;
    var n := |retries| - 1;
    assert retries[..n + 1] == retries && !AdmitsAt(w, retries, n, p);
    if LastRetry(w, retries[..n], p).Some? {
      var i := SomeRetryAdmits(w, retries, p);
    }
  }

  lemma {:induction false} SteadyRetriesAgree(w: World, retries: seq<Retry>, p: Point)
    requires Steady(w, retries)
    ensures LastRetry(w, retries, p).Some? ==> LastRetry(w, retries, p) == LastWrite(Flattened(retries), p)
  {
    hide LastAdmits, LastWrite, Steady;
    if retries != [] {
      var n := |retries| - 1;
      SteadyPrefix(w, retries, n);
      SteadyRetriesAgree(w, retries[..n], p);
      LastWriteOfParts(Flattened(retries[..n]), retries[n].batch, p);
      if LastAdmits(w, retries, p) {
        LastAdmitsWrites(w, retries, p);
      } else if LastWrite(retries[n].batch, p).Some? {
        RefusedMeansUnwritten(w, retries, p);
      }
    }
  }

  lemma LastAdmitsWrites(w: World, retries: seq<Retry>, p: Point)
    requires retries != [] && LastAdmits(w, retries, p)
    ensures LastWrite(retries[|retries| - 1].batch, p).Some?
  {
  }

  /**
   Retrying all batches of the transaction in order ends where the commit and the maintenance
   alone would have ended, unless a point one of the retries wrote became blocked or late
   before a later retry that writes it too.
   */
  lemma {:induction false} RetryingInOrderIsHarmless(steps: seq<Step>, now: U64, retries: seq<Retry>)
    requires var whole := Flattened(retries);
      Persist(Run(Fresh(), steps).db, now, whole).Some? && RetriesOf(retries, now, whole)
    ensures var w1 := Apply(Run(Fresh(), steps), PersistBatches(now, Flattened(retries)));
      Steady(w1, retries) ==> Retried(w1, retries) == Maintained(w1, retries)
  {
    hide Run, Apply, Persist, Retried, Maintained, LastRetry, LastWrite, Steady, Flattened, RetriesOf;
    var w1 := Apply(Run(Fresh(), steps), PersistBatches(now, Flattened(retries)));
    RetriesRestoreCommitIff(steps, now, Flattened(retries), retries);
    if Steady(w1, retries) {
      forall p ensures RetriesAgreeAt(w1, retries, Flattened(retries), p) {
        SteadyRetriesAgree(w1, retries, p);
      }
    }
  }
}
