/**
 What each history transaction does to the tables, said by timestamps, the clock and the
 stored evidence alone: which samples are stored and which are late, which rows retention,
 the cap and retirement remove and which they spare, and which buckets are sealed.
 */
module HistoryEffects {
  import opened Wrappers
  import opened HistoryTables
  import opened HistoryPages
  import opened HistoryReplay
  import opened HistoryRuns

  // ---------------------------------------------------------------------------
  // Admission by the clock
  // ---------------------------------------------------------------------------

  /** The five-minute bucket of the timestamp began no more than an hour before the clock. */
  predicate WithinHour(timestamp: nat, now: nat) {
    BucketStart(timestamp, 2) + RAW_RETENTION_MILLIS >= now
  }

  /** A sample at this timestamp is stored: recent, not below the durable floor, not sealed. */
  predicate Accepts(db: Tables, now: nat, scope: Scope, timestamp: nat) {
    && WithinHour(timestamp, now)
    && timestamp + DURABLE_RETIREMENT_FLOOR_TAG >= db.evidence
    && Bucket(scope, 1, BucketStart(timestamp, 1)) !in db.tombstones
    && Bucket(scope, 2, BucketStart(timestamp, 2)) !in db.tombstones
  }

  lemma CutoffIsHour(timestamp: nat, now: U64)
    ensures timestamp >= RawAdmissionCutoff(now) <==> WithinHour(timestamp, now)
  {
    var cutoff, start := RawAdmissionCutoff(now), BucketStart(timestamp, 2);
    if now > RAW_RETENTION_MILLIS {
      AlignedOrder(cutoff, start);
    }
  }

  /** Between two multiples of the width lies a whole width. */
  lemma AlignedOrder(a: nat, b: nat)
    requires a % FIVE_MINUTE_BUCKET_MILLIS == 0 && b % FIVE_MINUTE_BUCKET_MILLIS == 0
    ensures a > b ==> a >= b + FIVE_MINUTE_BUCKET_MILLIS
    ensures b > a ==> b >= a + FIVE_MINUTE_BUCKET_MILLIS
  {
  }

  lemma AdmitsIffAccepts(db: Tables, now: U64, scope: Scope, timestamp: nat)
    ensures forall m :: PointAdmits(db, AdmissionCutoff(db, now), Point(scope, timestamp, m)) <==>
      Accepts(db, now, scope, timestamp)
  {
    hide RawAdmissionCutoff, BucketStart, WithinHour;
    CutoffIsHour(timestamp, now);
  }

  /** What a raw row holds after the batch transaction: the last accepted write, or what it held. */
  ghost predicate RawEffect(before: Tables, now: nat, samples: seq<Sample>, after: Tables, p: Point) {
    var k, written := RawKey(p), if Accepts(before, now, p.scope, p.timestamp) then LastWrite(samples, p) else None;
    && (k in after.points <==> k in before.points || written.Some?)
    && (written.Some? ==> after.points[k].value == written.value && after.points[k].samples == 1)
    && (written.None? && k in before.points ==>
          after.points[k].value == before.points[k].value && after.points[k].samples == before.points[k].samples)
  }

  /** What a committed batch transaction does. */
  ghost predicate PersistEffect(before: Tables, now: nat, samples: seq<Sample>, after: Tables) {
    && after.tombstones == before.tombstones && after.evidence == before.evidence
    && forall p :: RawEffect(before, now, samples, after, p)
  }

  lemma StoredRaw(points: map<Key, Row>, adm: seq<Sample>, p: Point)
    ensures var stored, k := StoredPoints(points, adm), RawKey(p); var written := LastWrite(adm, p);
      && (k in stored <==> k in points || written.Some?)
      && (k in stored ==>
            && stored[k].value == (if written.Some? then written.value else points[k].value)
            && stored[k].samples == (if written.Some? then 1 else points[k].samples))
  {
    hide StoredPoints, InsertAll, TouchedBuckets, LastWrite;
    var k := RawKey(p);
    InsertAllAt(points, adm, k);
    StoredAt(points, adm, k);
    assert PointOf(k) == p;
    if BucketFor(k) in TouchedBuckets(adm) {
      var s := TouchedBy(adm, BucketFor(k));
    }
  }

  /** A commit stores exactly the recent, open samples of the batch, each point with its last value. */
  lemma PersistStoresRecentSamples(db: Tables, now: U64, samples: seq<Sample>)
    requires Persist(db, now, samples).Some?
    ensures PersistEffect(db, now, samples, Persist(db, now, samples).value)
  {
    hide StoredPoints, LastWrite, AdmissionCutoff, Admitted, Faults, PointAdmits, Accepts;
    var cutoff := AdmissionCutoff(db, now);
    forall p ensures RawEffect(db, now, samples, Persist(db, now, samples).value, p) {
      AdmittedLastWrite(db, cutoff, samples, p);
      AdmitsIffAccepts(db, now, p.scope, p.timestamp);
      assert p == Point(p.scope, p.timestamp, p.metric);
      StoredRaw(db.points, Admitted(db, cutoff, samples), p);
    }
  }

  /**
   The plain bounds: no row of a sample an hour old or older than the floor is new or changed,
   and every sample less than fifty-five minutes old in open buckets is stored.
   */
  lemma OnlyTheLastHourIsStored(db: Tables, now: U64, samples: seq<Sample>)
    requires Persist(db, now, samples).Some?
    ensures var after := Persist(db, now, samples).value;
      && (forall p | RawKey(p) in after.points
            && (RawKey(p) !in db.points || after.points[RawKey(p)].value != db.points[RawKey(p)].value) ::
            p.timestamp + RAW_RETENTION_MILLIS >= now && p.timestamp >= DecodeFloor(db.evidence))
      && (forall s, m | s in samples && m in s.values
            && s.timestamp + RAW_RETENTION_MILLIS >= now + FIVE_MINUTE_BUCKET_MILLIS
            && s.timestamp >= DecodeFloor(db.evidence)
            && BucketOf(s.scope, 1, s.timestamp) !in db.tombstones
            && BucketOf(s.scope, 2, s.timestamp) !in db.tombstones ::
            Key(s.scope, 0, s.timestamp, m) in after.points)
  {
    PersistStoresRecentSamples(db, now, samples);
    hide Persist, LastWrite;
    var after := Persist(db, now, samples).value;
    forall p | RawKey(p) in after.points
               && (RawKey(p) !in db.points || after.points[RawKey(p)].value != db.points[RawKey(p)].value)
      ensures p.timestamp + RAW_RETENTION_MILLIS >= now && p.timestamp >= DecodeFloor(db.evidence)
    {
      assert RawEffect(db, now, samples, after, p);
    }
    forall s, m | s in samples && m in s.values
                  && s.timestamp + RAW_RETENTION_MILLIS >= now + FIVE_MINUTE_BUCKET_MILLIS
                  && s.timestamp >= DecodeFloor(db.evidence)
                  && BucketOf(s.scope, 1, s.timestamp) !in db.tombstones
                  && BucketOf(s.scope, 2, s.timestamp) !in db.tombstones
      ensures Key(s.scope, 0, s.timestamp, m) in after.points
    {
      var p := Point(s.scope, s.timestamp, m);
      LastWriteIsSome(samples, p);
      assert RawEffect(db, now, samples, after, p);
    }
  }

  lemma SampleAdmitsIff(db: Tables, now: U64, s: Sample)
    ensures Admits(db, AdmissionCutoff(db, now), s) <==> Accepts(db, now, s.scope, s.timestamp)
  {
    hide AdmissionCutoff, Accepts;
    AdmitsIffAccepts(db, now, s.scope, s.timestamp);
    assert Admits(db, AdmissionCutoff(db, now), s) <==>
      PointAdmits(db, AdmissionCutoff(db, now), Point(s.scope, s.timestamp, ""));
  }

  /** How many of the samples are late: not accepted at the transaction's clock. */
  function LateCount(db: Tables, now: nat, samples: seq<Sample>): nat {
    if samples == [] then 0
    else
      var s := samples[|samples| - 1];
      LateCount(db, now, samples[..|samples| - 1]) + if Accepts(db, now, s.scope, s.timestamp) then 0 else 1
  }

  lemma {:induction false} LateAreNotAdmitted(db: Tables, now: U64, samples: seq<Sample>)
    ensures |Admitted(db, AdmissionCutoff(db, now), samples)| + LateCount(db, now, samples) == |samples|
  {
    hide AdmissionCutoff, Accepts;
    if samples != [] {
      var n := |samples| - 1;
      LateAreNotAdmitted(db, now, samples[..n]);
      SampleAdmitsIff(db, now, samples[n]);
    }
  }

  /** A timestamp whose lookup or roll-up bucket does not fit a SQLite integer. */
  predicate OutOfRange(db: Tables, now: nat, s: Sample) {
    && WithinHour(s.timestamp, now) && s.timestamp + DURABLE_RETIREMENT_FLOOR_TAG >= db.evidence
    && (|| BucketStart(s.timestamp, 1) > I64_MAX
        || (&& Accepts(db, now, s.scope, s.timestamp)
            && BucketStart(s.timestamp, 2) + FIVE_MINUTE_BUCKET_MILLIS > I64_MAX))
  }

  /** A recent sample whose minute or, when it is open, whose own timestamp does not fit a SQLite integer. */
  predicate Unconvertible(db: Tables, now: nat, s: Sample) {
    && WithinHour(s.timestamp, now) && s.timestamp + DURABLE_RETIREMENT_FLOOR_TAG >= db.evidence
    && (|| BucketStart(s.timestamp, 1) > I64_MAX
        || (Accepts(db, now, s.scope, s.timestamp) && s.timestamp > I64_MAX))
  }

  lemma InsertFaultsIffUnconvertible(db: Tables, now: U64, s: Sample)
    ensures InsertFaults(db, AdmissionCutoff(db, now), s) <==> Unconvertible(db, now, s)
  {
    hide RawAdmissionCutoff;
    CutoffIsHour(s.timestamp, now);
  }

  /** How many samples the insert loop gets past before a conversion fails. */
  function Reached(db: Tables, now: nat, samples: seq<Sample>): (n: nat)
    ensures n <= |samples|
    ensures forall i | 0 <= i < n :: !Unconvertible(db, now, samples[i])
    ensures n < |samples| ==> Unconvertible(db, now, samples[n])
  {
    if samples == [] || Unconvertible(db, now, samples[0]) then 0 else 1 + Reached(db, now, samples[1..])
  }

  lemma FaultsIffOutOfRange(db: Tables, now: U64, s: Sample)
    ensures Faults(db, AdmissionCutoff(db, now), s) <==> OutOfRange(db, now, s)
  {
    hide RawAdmissionCutoff;
    CutoffIsHour(s.timestamp, now);
    MinuteInFiveMinutes(s.timestamp);
  }

  lemma MinuteInFiveMinutes(t: nat)
    ensures BucketStart(t, 2) <= BucketStart(t, 1)
    ensures BucketStart(t, 1) + MINUTE_BUCKET_MILLIS <= BucketStart(t, 2) + FIVE_MINUTE_BUCKET_MILLIS
  {
    var a, b := BucketStart(t, 1), BucketStart(t, 2);
    MinuteMultiple(b);
    MinuteOrder(a, b);
    MinuteOrder(b + FIVE_MINUTE_BUCKET_MILLIS, a);
  }

  lemma MinuteMultiple(b: nat)
    requires b % FIVE_MINUTE_BUCKET_MILLIS == 0
    ensures b % MINUTE_BUCKET_MILLIS == 0 && (b + FIVE_MINUTE_BUCKET_MILLIS) % MINUTE_BUCKET_MILLIS == 0
  {
    var q := b / FIVE_MINUTE_BUCKET_MILLIS;
    assert b == MINUTE_BUCKET_MILLIS * (5 * q);
    assert b + FIVE_MINUTE_BUCKET_MILLIS == MINUTE_BUCKET_MILLIS * (5 * q + 5);
    MultipleOfMinute(5 * q);
    MultipleOfMinute(5 * q + 5);
  }

  lemma MultipleOfMinute(q: nat)
    ensures MINUTE_BUCKET_MILLIS * q % MINUTE_BUCKET_MILLIS == 0
  {
  }

  lemma MinuteOrder(a: nat, b: nat)
    requires a % MINUTE_BUCKET_MILLIS == 0 && b % MINUTE_BUCKET_MILLIS == 0
    ensures a < b ==> a + MINUTE_BUCKET_MILLIS <= b
    ensures b < a ==> b + MINUTE_BUCKET_MILLIS <= a
  {
  }

  /** The transaction rolls back exactly when a recent sample is out of range. */
  lemma PersistFailsIff(db: Tables, now: U64, samples: seq<Sample>)
    ensures Persist(db, now, samples).None? <==> exists s | s in samples :: OutOfRange(db, now, s)
  {
    hide Faults, OutOfRange, AdmissionCutoff, StoredPoints, Admitted;
    forall s ensures Faults(db, AdmissionCutoff(db, now), s) <==> OutOfRange(db, now, s) {
      FaultsIffOutOfRange(db, now, s);
    }
  }

  /** The history a committed batch leaves: each accepted point with its last value, the rest as before. */
  lemma PersistRemembersRecentSamples(w: World, now: U64, samples: seq<Sample>, p: Point)
    requires Persist(w.db, now, samples).Some?
    ensures var w' := Apply(w, PersistBatches(now, samples));
      var written := if Accepts(w.db, now, p.scope, p.timestamp) then LastWrite(samples, p) else None;
      && w'.deleted == w.deleted && (p in w'.admitted <==> p in w.admitted || written.Some?)
      && (p in w'.admitted ==> w'.admitted[p] == if written.Some? then written.value else w.admitted[p])
  {
    hide StoredPoints, LastWrite, AdmissionCutoff, Admitted, Faults, PointAdmits, Accepts, RememberAll;
    var cutoff := AdmissionCutoff(w.db, now);
    AdmittedLastWrite(w.db, cutoff, samples, p);
    AdmitsIffAccepts(w.db, now, p.scope, p.timestamp);
    RememberAllAt(w.admitted, Admitted(w.db, cutoff, samples), p);
  }

  // ---------------------------------------------------------------------------
  // Deletion
  // ---------------------------------------------------------------------------

  ghost predicate Gone(before: Tables, after: Tables, k: Key) {
    k in before.points && k !in after.points
  }

  /** The bucket a row of this key seals when it is deleted. */
  predicate Seals(k: Key, t: Bucket) {
    && t.scope == k.scope
    && if k.resolution == 0 then t.resolution in {1, 2} && t.timestamp == BucketStart(k.timestamp, t.resolution)
       else t.resolution == k.resolution && t.timestamp == k.timestamp
  }

  /** The time a tombstone holds after rows were deleted at `at`. */
  ghost predicate SealEffect(before: Tables, at: nat, after: Tables, t: Bucket) {
    if exists k | k in before.points :: Gone(before, after, k) && Seals(k, t) then
      t in after.tombstones
      && after.tombstones[t] == if t in before.tombstones then Max(before.tombstones[t], at) else at
    else
      && (t in after.tombstones <==> t in before.tombstones)
      && (t in before.tombstones ==> after.tombstones[t] == before.tombstones[t])
  }

  /** Whole buckets of one resolution go, everything else stays, and exactly the gone buckets are sealed. */
  ghost predicate DeleteEffect(before: Tables, resolution: nat, at: nat, after: Tables) {
    && after.evidence == before.evidence
    && (forall k | k in after.points :: k in before.points && after.points[k] == before.points[k])
    && (forall k | Gone(before, after, k) :: k.resolution == resolution)
    && (forall k, j | Gone(before, after, k) && j in before.points && BucketFor(j) == BucketFor(k) ::
          j !in after.points)
    && (forall t :: SealEffect(before, at, after, t))
  }

  lemma GoneIffInPage(db: Tables, page: set<Bucket>, at: nat, k: Key)
    ensures Gone(db, DeletePage(db, page, at), k) <==> k in db.points && BucketFor(k) in page
  {
  }

  lemma SealsIffTombstone(k: Key, t: Bucket)
    ensures Seals(k, t) <==> t in Tombstones(BucketFor(k))
  {
    hide BucketStart;
  }

  lemma PageSeals(db: Tables, resolution: nat, page: set<Bucket>, at: nat, t: Bucket)
    requires page <= BucketsAt(db.points, resolution)
    ensures SealEffect(db, at, DeletePage(db, page, at), t)
  {
    hide Seals, Tombstones;
    var after := DeletePage(db, page, at);
    if t in TombstonesOf(page) {
      var b :| b in page && t in Tombstones(b);
      var k :| k in db.points && k.resolution == resolution && BucketFor(k) == b;
      SealsIffTombstone(k, t);
      GoneIffInPage(db, page, at, k);
    } else {
      forall k | k in db.points ensures !(Gone(db, after, k) && Seals(k, t)) {
        SealsIffTombstone(k, t);
        GoneIffInPage(db, page, at, k);
      }
    }
  }

  lemma DeletionIsExact(db: Tables, resolution: nat, page: set<Bucket>, at: nat)
    requires page <= BucketsAt(db.points, resolution)
    ensures DeleteEffect(db, resolution, at, DeletePage(db, page, at))
  {
    hide SealEffect;
    forall t ensures SealEffect(db, at, DeletePage(db, page, at), t) {
      PageSeals(db, resolution, page, at, t);
    }
  }

  /** What a retention chunk does: only rows older than the cutoff go, the oldest of each table first. */
  ghost predicate RetentionEffect(before: Tables, resolution: nat, cutoff: nat, at: nat, after: Tables) {
    && DeleteEffect(before, resolution, at, after)
    && (forall k | Gone(before, after, k) :: k.timestamp < cutoff)
    && (forall k, j | Gone(before, after, k) && j in before.points && j.resolution == resolution
          && j.scope.Server? == k.scope.Server? && j.timestamp < k.timestamp :: j !in after.points)
  }

  /** A retention chunk spares every row of another resolution and every row not yet expired. */
  lemma RetentionSparesUnexpired(db: Tables, resolution: nat, cutoff: nat, page: set<Bucket>, at: nat)
    requires RetentionPage(db.points, resolution, cutoff, page)
    ensures RetentionEffect(db, resolution, cutoff, at, DeletePage(db, page, at))
    ensures forall k | k in db.points && (k.resolution != resolution || k.timestamp >= cutoff) ::
      k in DeletePage(db, page, at).points && DeletePage(db, page, at).points[k] == db.points[k]
  {
    hide SealEffect, EntombAll;
    assert page <= Expired(db.points, resolution, cutoff) <= BucketsAt(db.points, resolution);
    DeletionIsExact(db, resolution, page, at);
    var after := DeletePage(db, page, at);
    forall k, j | Gone(db, after, k) && j in db.points && j.resolution == resolution
                  && j.scope.Server? == k.scope.Server? && j.timestamp < k.timestamp
      ensures j !in after.points
    {
      var b, c := BucketFor(k), BucketFor(j);
      assert b in page && Before(c, b) && c in Expired(db.points, resolution, cutoff);
    }
  }

  /** The same over every run: retention steps never touch a row that has not expired. */
  lemma {:induction false} RetentionStepSparesUnexpired(steps: seq<Step>, resolution: nat, cutoff: nat,
      page: set<Bucket>, at: nat, k: Key)
    requires k in Run(Fresh(), steps).db.points && (k.resolution != resolution || k.timestamp >= cutoff)
    ensures var w, w' := Run(Fresh(), steps), Apply(Run(Fresh(), steps), RetentionChunk(resolution, cutoff, page, at));
      k in w'.db.points && w'.db.points[k] == w.db.points[k] && w'.admitted == w.admitted
  {
    hide Run, RetentionPage, DeletePage;
    var w := Run(Fresh(), steps);
    if RetentionPage(w.db.points, resolution, cutoff, page) {
      RetentionSparesUnexpired(w.db, resolution, cutoff, page, at);
    }
  }

  /** Some row of the key's bucket is not flagged as the latest of its series. */
  predicate Prunable(points: map<Key, Row>, resolution: nat, b: Bucket) {
    exists j | j in points :: j.resolution == resolution && BucketFor(j) == b && !points[j].latest
  }

  /** Nothing prunable that is older than a row that went stays, and at a tie the server goes first. */
  ghost predicate OldestWent(before: Tables, resolution: nat, after: Tables) {
    forall k, j | Gone(before, after, k) && j in before.points && j.resolution == resolution
                  && Prunable(before.points, resolution, BucketFor(j)) ::
      && (j.timestamp < k.timestamp ==> j !in after.points)
      && (j.timestamp == k.timestamp && j.scope.Server? ==> k.scope.Server?)
  }

  /** Only prunable rows went, all of one table. */
  ghost predicate PrunableWent(before: Tables, resolution: nat, after: Tables) {
    && (forall k | Gone(before, after, k) :: Prunable(before.points, resolution, BucketFor(k)))
    && (forall k, j | Gone(before, after, k) && Gone(before, after, j) :: k.scope.Server? == j.scope.Server?)
  }

  /** What a cap step does: the oldest prunable buckets of one table go, some whenever there is one. */
  ghost predicate CapEffect(before: Tables, resolution: nat, at: nat, after: Tables) {
    && DeleteEffect(before, resolution, at, after)
    && PrunableWent(before, resolution, after)
    && OldestWent(before, resolution, after)
    && ((exists k | k in before.points :: k.resolution == resolution && !before.points[k].latest) ==>
          exists k | k in before.points :: Gone(before, after, k))
  }

  lemma PrunableIsCandidate(points: map<Key, Row>, resolution: nat, b: Bucket)
    ensures Prunable(points, resolution, b) <==> b in NotLatest(points, resolution)
  {
  }

  lemma PageIsGone(db: Tables, resolution: nat, page: set<Bucket>, at: nat)
    requires page <= NotLatest(db.points, resolution) && page != {}
    ensures exists k | k in db.points :: Gone(db, DeletePage(db, page, at), k)
  {
    var b :| b in page;
    var k :| k in db.points && k.resolution == resolution && BucketFor(k) == b;
    GoneIffInPage(db, page, at, k);
  }

  lemma CapPageIsOldest(db: Tables, resolution: nat, page: set<Bucket>, at: nat, k: Key, j: Key)
    requires CapPage(db.points, resolution, page) && Gone(db, DeletePage(db, page, at), k) && j in db.points
    requires j.resolution == resolution && Prunable(db.points, resolution, BucketFor(j))
    ensures j.timestamp < k.timestamp ==> j !in DeletePage(db, page, at).points
    ensures j.timestamp == k.timestamp && j.scope.Server? ==> k.scope.Server?
  {
    hide NameBefore;
    GoneIffInPage(db, page, at, k);
    PrunableIsCandidate(db.points, resolution, BucketFor(j));
    var b, c := BucketFor(k), BucketFor(j);
    assert j.timestamp < k.timestamp ==> Before(c, b);
    assert j.timestamp == k.timestamp && j.scope.Server? && k.scope.Client? ==> Before(c, b);
    assert b in page && (Before(c, b) ==> c in page);
    assert k.scope.Client? && c in page && j.scope.Server? ==> c in OfServer(page) && b in OfClients(page);
  }

  lemma CapPageIsOneTable(db: Tables, resolution: nat, page: set<Bucket>, at: nat, k: Key, j: Key)
    requires CapPage(db.points, resolution, page)
    requires Gone(db, DeletePage(db, page, at), k) && Gone(db, DeletePage(db, page, at), j)
    ensures k.scope.Server? == j.scope.Server? && Prunable(db.points, resolution, BucketFor(k))
  {
    hide Prunable, Before;
    GoneIffInPage(db, page, at, k);
    GoneIffInPage(db, page, at, j);
    PrunableIsCandidate(db.points, resolution, BucketFor(k));
    assert BucketFor(k) in page && BucketFor(j) in page;
  }

  lemma CapTakesSomething(db: Tables, resolution: nat, page: set<Bucket>, at: nat, k: Key)
    requires CapPage(db.points, resolution, page)
    requires k in db.points && k.resolution == resolution && !db.points[k].latest
    ensures exists g | g in db.points :: Gone(db, DeletePage(db, page, at), g)
  {
    hide Before;
    assert BucketFor(k) in NotLatest(db.points, resolution);
    PageIsGone(db, resolution, page, at);
  }

  lemma CapTakesOldest(db: Tables, resolution: nat, page: set<Bucket>, at: nat)
    requires CapPage(db.points, resolution, page)
    ensures OldestWent(db, resolution, DeletePage(db, page, at))
  {
    hide DeletePage, Gone, Prunable, CapPage;
    var after := DeletePage(db, page, at);
    forall k, j | Gone(db, after, k) && j in db.points && j.resolution == resolution
                  && Prunable(db.points, resolution, BucketFor(j))
      ensures j.timestamp < k.timestamp ==> j !in after.points
      ensures j.timestamp == k.timestamp && j.scope.Server? ==> k.scope.Server?
    {
      CapPageIsOldest(db, resolution, page, at, k, j);
    }
  }

  lemma CapTakesPrunable(db: Tables, resolution: nat, page: set<Bucket>, at: nat)
    requires CapPage(db.points, resolution, page)
    ensures PrunableWent(db, resolution, DeletePage(db, page, at))
  {
    hide DeletePage, Gone, Prunable, CapPage;
    var after := DeletePage(db, page, at);
    forall k, j | Gone(db, after, k) && Gone(db, after, j) ensures k.scope.Server? == j.scope.Server? {
      CapPageIsOneTable(db, resolution, page, at, k, j);
    }
    forall k | Gone(db, after, k) ensures Prunable(db.points, resolution, BucketFor(k)) {
      CapPageIsOneTable(db, resolution, page, at, k, k);
    }
  }

  lemma CapPageIsStored(db: Tables, resolution: nat, page: set<Bucket>)
    requires CapPage(db.points, resolution, page)
    ensures page <= BucketsAt(db.points, resolution)
  {
    hide Before;
  }

  /** A cap step prunes the oldest prunable buckets of one table and nothing else. */
  lemma CapPrunesOldest(db: Tables, resolution: nat, page: set<Bucket>, at: nat)
    requires CapPage(db.points, resolution, page)
    ensures CapEffect(db, resolution, at, DeletePage(db, page, at))
  {
    hide DeletePage, Gone, DeleteEffect, PrunableWent, OldestWent, CapPage;
    CapPageIsStored(db, resolution, page);
    DeletionIsExact(db, resolution, page, at);
    CapTakesPrunable(db, resolution, page, at);
    CapTakesOldest(db, resolution, page, at);
    if exists k | k in db.points :: k.resolution == resolution && !db.points[k].latest {
      var k :| k in db.points && k.resolution == resolution && !db.points[k].latest;
      CapTakesSomething(db, resolution, page, at, k);
    }
  }

  // ---------------------------------------------------------------------------
  // Retirement
  // ---------------------------------------------------------------------------

  /** What a retirement does: only tombstones old by both measures go, and the floor rises with them. */
  ghost predicate RetireEffect(before: Tables, resolution: nat, deletedBefore: nat, cutoff: nat, after: Tables) {
    && after.points == before.points
    && (forall t | t in after.tombstones :: t in before.tombstones && after.tombstones[t] == before.tombstones[t])
    && (forall t | t in before.tombstones && t !in after.tombstones ::
          t.resolution == resolution && before.tombstones[t] < deletedBefore && t.timestamp < cutoff)
    && after.evidence == if after.tombstones == before.tombstones then before.evidence
                         else Max(before.evidence, DURABLE_RETIREMENT_FLOOR_TAG + cutoff)
  }

  /** Retirement spares tombstones of other resolutions, young ones and those the cutoff does not cover. */
  lemma RetirementSparesYoung(db: Tables, resolution: nat, deletedBefore: nat, cutoff: nat, limit: nat,
      page: set<Bucket>)
    requires RetirementPage(db, resolution, deletedBefore, cutoff, limit, page) && Retire(db, page, cutoff).Some?
    ensures RetireEffect(db, resolution, deletedBefore, cutoff, Retire(db, page, cutoff).value)
  {
    var after := Retire(db, page, cutoff).value;
    if page != {} {
      var t :| t in page;
      assert t in db.tombstones && t !in after.tombstones;
    }
  }

  /** A retirement that removes anything commits exactly when the raised floor fits a SQLite integer. */
  lemma RetireCommitsIff(db: Tables, page: set<Bucket>, cutoff: nat)
    ensures Retire(db, page, cutoff).Some? <==> page == {} || DURABLE_RETIREMENT_FLOOR_TAG + cutoff <= I64_MAX
  {
  }

  // ---------------------------------------------------------------------------
  // The order of names
  // ---------------------------------------------------------------------------

  /** Names are ordered like a dictionary: the first difference decides, a prefix comes first. */
  lemma {:induction false} NamesAreLexicographic(a: string, b: string, n: nat)
    requires n <= |a| && n <= |b| && a[..n] == b[..n]
    requires n == |a| || n == |b| || a[n] != b[n]
    ensures NameBefore(a, b) <==> (n == |a| && n < |b|) || (n < |a| && n < |b| && a[n] < b[n])
  {
    if n > 0 {
      assert a[0] == a[..n][0] == b[..n][0] == b[0];
      assert a[1..][..n - 1] == a[..n][1..] == b[..n][1..] == b[1..][..n - 1];
      NamesAreLexicographic(a[1..], b[1..], n - 1);
    }
  }
}
