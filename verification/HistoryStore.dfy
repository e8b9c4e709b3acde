/** The transactions of the history engine as in-place updates, statement by statement. */
module HistoryStore {
  import opened Wrappers
  import opened HistoryEffects
  import opened HistoryPages
  import opened HistoryTables

  // ---------------------------------------------------------------------------
  // Statement-at-a-time execution equals the transaction
  // ---------------------------------------------------------------------------

  lemma RegroupedNext(raw: map<Key, Row>, done: set<Bucket>, b: Bucket, k: Key)
    ensures k in RegroupedKeys(raw, done + {b}) <==>
      k in RegroupedKeys(raw, done) || (BucketFor(k) == b && k.metric in MetricsIn(raw, b))
  {
  }

  lemma AggregateRowKept(raw: map<Key, Row>, done: set<Bucket>, b: Bucket, m: Metric)
    requires forall d | d in done :: d.resolution != 0
    requires KeyIn(b, m) !in RegroupedKeys(raw, done)
    ensures AggregateRow(RollUp(raw, done), b, m) == AggregateRow(raw, b, m)
  {
    hide RawCount, RawTotal, MetricsIn;
    RawRowsKept(raw, done);
    SumsKept(raw, RollUp(raw, done), b.scope, m, b.timestamp, b.timestamp + Width(b.resolution));
  }

  lemma AggregateNextAt(raw: map<Key, Row>, done: set<Bucket>, b: Bucket, k: Key)
    requires b !in done && forall d | d in done :: d.resolution != 0
    requires MetricsIn(RollUp(raw, done), b) == MetricsIn(raw, b)
    ensures var next := AggregateBucket(RollUp(raw, done), b); var all := RollUp(raw, done + {b});
      (k in next <==> k in all) && (k in next ==> next[k] == all[k])
  {
    hide MetricsIn, AggregateRow;
    RegroupedNext(raw, done, b, k);
    if BucketFor(k) == b {
      assert KeyIn(b, k.metric) == k && k !in RegroupedKeys(raw, done);
      AggregateRowKept(raw, done, b, k.metric);
    }
  }

  /** Aggregating reads raw rows only, so buckets can be aggregated one after the other. */
  lemma AggregateNext(raw: map<Key, Row>, done: set<Bucket>, b: Bucket)
    requires b !in done && forall d | d in done :: d.resolution != 0
    ensures AggregateBucket(RollUp(raw, done), b) == RollUp(raw, done + {b})
  {
    hide AggregateRow, AggregateBucket, RollUp, MetricsIn;
    assert MetricsIn(RollUp(raw, done), b) == MetricsIn(raw, b) by { RawRowsKept(raw, done); }
    var next, all := AggregateBucket(RollUp(raw, done), b), RollUp(raw, done + {b});
    forall k ensures (k in next <==> k in all) && (k in next ==> next[k] == all[k]) {
      AggregateNextAt(raw, done, b, k);
    }
  }

  lemma RawRowsKept(raw: map<Key, Row>, done: set<Bucket>)
    requires forall d | d in done :: d.resolution != 0
    ensures forall k: Key | k.resolution == 0 ::
      (k in RollUp(raw, done) <==> k in raw) && (k in raw ==> RollUp(raw, done)[k] == raw[k])
    ensures forall b :: MetricsIn(RollUp(raw, done), b) == MetricsIn(raw, b)
  {
  }

  lemma {:induction false} SumsKept(raw: map<Key, Row>, staged: map<Key, Row>, scope: Scope, metric: Metric, lo: nat,
      hi: nat)
    requires forall k: Key | k.resolution == 0 :: (k in staged <==> k in raw) && (k in raw ==> staged[k] == raw[k])
    ensures RawCount(staged, scope, metric, lo, hi) == RawCount(raw, scope, metric, lo, hi)
    ensures RawTotal(staged, scope, metric, lo, hi) == RawTotal(raw, scope, metric, lo, hi)
  {
    if lo < hi {
      SumsKept(raw, staged, scope, metric, lo, hi - 1);
    }
  }

  /** Refreshing looks at timestamps only, so series can be refreshed one after the other. */
  lemma RefreshNext(points: map<Key, Row>, done: set<Series>, next: Series)
    requires next !in done
    ensures Refresh(Refresh(points, done), {next}) == Refresh(points, done + {next})
  {
  }

  lemma TombstonesNext(done: set<Bucket>, b: Bucket)
    ensures TombstonesOf(done + {b}) == TombstonesOf(done) + Tombstones(b)
  {
  }

  lemma EntombNextAt(tombstones: map<Bucket, nat>, done: set<Bucket>, b: Bucket, at: nat, t: Bucket)
    requires TombstonesOf(done + {b}) == TombstonesOf(done) + Tombstones(b)
    ensures var next := Entomb(EntombAll(tombstones, done, at), b, at);
      var all := EntombAll(tombstones, done + {b}, at);
      (t in next <==> t in all) && (t in next ==> next[t] == all[t])
  {
    hide Tombstones, TombstonesOf;
  }

  lemma EntombNext(tombstones: map<Bucket, nat>, done: set<Bucket>, b: Bucket, at: nat)
    ensures Entomb(EntombAll(tombstones, done, at), b, at) == EntombAll(tombstones, done + {b}, at)
  {
    hide Tombstones, TombstonesOf, Entomb, EntombAll;
    TombstonesNext(done, b);
    var next, all := Entomb(EntombAll(tombstones, done, at), b, at), EntombAll(tombstones, done + {b}, at);
    forall t ensures (t in next <==> t in all) && (t in next ==> next[t] == all[t]) {
      EntombNextAt(tombstones, done, b, at, t);
    }
  }

  lemma AdmittedPrefix(db: Tables, cutoff: nat, samples: seq<Sample>, i: nat)
    requires i < |samples|
    ensures var before := Admitted(db, cutoff, samples[..i]);
      Admitted(db, cutoff, samples[..i + 1]) == if Admits(db, cutoff, samples[i]) then before + [samples[i]] else before
  {
    assert samples[..i + 1][..i] == samples[..i];
  }

  // ---------------------------------------------------------------------------
  // The store
  // ---------------------------------------------------------------------------

  class Store {
    var points: map<Key, Row>
    var tombstones: map<Bucket, nat>
    var evidence: nat
    var droppedLatePoints: nat

    constructor ()
      ensures View() == Tables(map[], map[], 0) && droppedLatePoints == 0
    {
      points, tombstones, evidence, droppedLatePoints := map[], map[], 0, 0;
    }

    function View(): Tables
      reads this
    {
      Tables(points, tombstones, evidence)
    }

    /**
     Writes the queued samples in one transaction; `committed` is false when it rolled back.
     Samples found late before a conversion failed are counted even though nothing is kept.
     */
    method PersistBatches(now: U64, samples: seq<Sample>) returns (committed: bool)
      modifies this
      ensures committed <==> Persist(old(View()), now, samples).Some?
      ensures View() == if committed then Persist(old(View()), now, samples).value else old(View())
      ensures committed <==> forall s | s in samples :: !OutOfRange(old(View()), now, s)
      ensures committed ==> PersistEffect(old(View()), now, samples, View())
      ensures var n := Reached(old(View()), now, samples);
        && droppedLatePoints == old(droppedLatePoints) + LateCount(old(View()), now, samples[..n])
        && (committed ==> n == |samples|)
    {
      hide PersistEffect, OutOfRange, LateCount, Reached;
      PersistFailsIff(View(), now, samples);
      if Persist(View(), now, samples).Some? {
        PersistStoresRecentSamples(View(), now, samples);
      }
      FaultsSplit(View(), now, samples);
      var ok, staged, buckets, series, late := StageSamples(View(), now, samples);
      assert samples[..|samples|] == samples;
      droppedLatePoints := droppedLatePoints + late;
      if !ok { return false; }
      ok, staged := AggregateTouched(staged, buckets);
      if !ok { return false; }
      staged := RefreshTouched(staged, series);
      points := staged;
      committed := true;
    }

    /** Deletes the selected buckets and leaves their tombstones, one bucket at a time. */
    method DeleteBuckets(page: set<Bucket>, at: nat)
      modifies this`points, this`tombstones
      ensures View() == DeletePage(old(View()), page, at)
    {
      ghost var db := View();
      var remaining := page;
      ghost var done: set<Bucket> := {};
      assert EntombAll(tombstones, {}, at) == tombstones;
      while remaining != {}
        invariant done + remaining == page && done !! remaining
        invariant points == map k | k in db.points && BucketFor(k) !in done :: db.points[k]
        invariant tombstones == EntombAll(db.tombstones, done, at)
        decreases remaining
      {
        var b :| b in remaining;
        EntombNext(db.tombstones, done, b, at);
        tombstones := Entomb(tombstones, b, at);
        points := map k | k in points && BucketFor(k) != b :: points[k];
        remaining, done := remaining - {b}, done + {b};
      }
      assert done == page;
    }

    /** One retention chunk: the oldest expired buckets of each table are deleted. */
    method RetentionChunk(resolution: nat, cutoff: U64, at: U64)
      returns (r: Result<bool, ValueOutOfRange>, page: set<Bucket>)
      modifies this`points, this`tombstones
      ensures r.Ok? <==> cutoff <= I64_MAX && at <= I64_MAX
      ensures r.Err? ==> View() == old(View())
      ensures r.Ok? ==>
        RetentionPage(old(points), resolution, cutoff, page) && View() == DeletePage(old(View()), page, at)
      ensures r.Ok? ==> RetentionEffect(old(View()), resolution, cutoff, at, View())
      ensures forall k | k in old(points) && (k.resolution != resolution || k.timestamp >= cutoff) ::
        k in points && points[k] == old(points)[k]
      ensures r == Ok(true) ==> forall k | k in points && k.resolution == resolution :: k.timestamp >= cutoff
      ensures r == Ok(false) ==> page != {}
      ensures |OfServer(page)| <= MAINTENANCE_BUCKET_LIMIT && |OfClients(page)| <= MAINTENANCE_BUCKET_LIMIT
    {
      page := {};
      if cutoff > I64_MAX { return Err(ValueOutOfRange), page; }
      var finished;
      page, finished := SelectExpired(points, resolution, cutoff);
      if at > I64_MAX { return Err(ValueOutOfRange), page; }
      RetentionSparesUnexpired(View(), resolution, cutoff, page, at);
      hide RetentionPage, RetentionEffect;
      DeleteBuckets(page, at);
      assert finished ==> forall k | k in old(points) && k.resolution == resolution && k.timestamp < cutoff ::
        BucketFor(k) in Expired(old(points), resolution, cutoff);
      r := Ok(finished);
    }

    /** One cap pruning step: the oldest buckets that are not the latest of their series. */
    method CapPrune(resolution: nat, at: U64) returns (r: Result<CapOutcome, ValueOutOfRange>, page: set<Bucket>)
      modifies this`points, this`tombstones
      ensures CapPage(old(points), resolution, page)
      ensures r == Ok(Exhausted) <==> NotLatest(old(points), resolution) == {}
      ensures r.Err? <==> NotLatest(old(points), resolution) != {} && at > I64_MAX
      ensures View() == if r == Ok(Deleted) then DeletePage(old(View()), page, at) else old(View())
      ensures |page| <= CAP_BUCKET_LIMIT && (r == Ok(Deleted) ==> CapEffect(old(View()), resolution, at, View()))
    {
      page := SelectForCap(points, resolution);
      if page == {} { return Ok(Exhausted), page; }
      assert NotLatest(points, resolution) != {};
      if at > I64_MAX { return Err(ValueOutOfRange), page; }
      CapPrunesOldest(View(), resolution, page, at);
      hide CapPage, NotLatest, CapEffect;
      DeleteBuckets(page, at);
      r := Ok(Deleted);
    }

    /** Retires expired tombstones; the floor rises in the same transaction or nothing happens. */
    method RetireTombstones(resolution: nat, deletedBefore: U64, cutoff: U64, limit: U64)
      returns (r: Result<nat, ValueOutOfRange>, page: set<Bucket>)
      modifies this`tombstones, this`evidence
      ensures deletedBefore > I64_MAX || cutoff > I64_MAX || limit > I64_MAX ==> r.Err?
      ensures deletedBefore <= I64_MAX && cutoff <= I64_MAX && limit <= I64_MAX ==>
        && RetirementPage(old(View()), resolution, deletedBefore, cutoff, limit, page)
        && (r.Ok? <==> Retire(old(View()), page, cutoff).Some?)
        && (r.Ok? <==> page == {} || DURABLE_RETIREMENT_FLOOR_TAG + cutoff <= I64_MAX)
      ensures r.Ok? ==> r.value == |page| && View() == Retire(old(View()), page, cutoff).value
      ensures r.Ok? ==> RetireEffect(old(View()), resolution, deletedBefore, cutoff, View())
      ensures r.Ok? ==> |page| <= limit
      ensures r.Ok? && |page| < limit ==> forall t | t in tombstones && t.resolution == resolution ::
        tombstones[t] >= deletedBefore || t.timestamp >= cutoff
      ensures r.Err? ==> View() == old(View())
    {
      page := {};
      if deletedBefore > I64_MAX || cutoff > I64_MAX || limit > I64_MAX { return Err(ValueOutOfRange), page; }
      page := SelectTombstones(View(), resolution, deletedBefore, cutoff, limit);
      RetireCommitsIff(View(), page, cutoff);
      assert |page| < limit ==> page == ExpiredTombstones(tombstones, resolution, deletedBefore, cutoff);
      assert |page| < limit ==> forall t | t in tombstones && t.resolution == resolution && t !in page ::
        tombstones[t] >= deletedBefore || t.timestamp >= cutoff;
      if Retire(View(), page, cutoff).Some? {
        RetirementSparesYoung(View(), resolution, deletedBefore, cutoff, limit, page);
      }
      hide RetireEffect, RetirementPage;
      if page == {} { return Ok(0), page; }
      var encoded := EncodeFloor(cutoff);
      if encoded.None? { return Err(ValueOutOfRange), page; }
      tombstones := tombstones - page;
      evidence := Max(evidence, encoded.value);
      r := Ok(|page|);
    }
  }

  /** A conversion to a SQLite integer failed and the transaction rolled back. */
  datatype ValueOutOfRange = ValueOutOfRange

  datatype CapOutcome = Deleted | Exhausted

  /** The transaction rolls back when an insert fails or a bucket the inserts touch does. */
  lemma FaultsSplit(db: Tables, now: U64, samples: seq<Sample>)
    ensures Persist(db, now, samples).None? <==>
      || Reached(db, now, samples) < |samples|
      || exists b | b in TouchedBuckets(Admitted(db, AdmissionCutoff(db, now), samples)) :: BucketFaults(b)
  {
    hide InsertFaults, Unconvertible, BucketFaults, Admits, Reached, AdmissionCutoff, StoredPoints;
    var cutoff := AdmissionCutoff(db, now);
    AdmittedExactly(db, cutoff, samples);
    forall s ensures InsertFaults(db, cutoff, s) <==> Unconvertible(db, now, s) {
      InsertFaultsIffUnconvertible(db, now, s);
    }
    var n, touched := Reached(db, now, samples), TouchedBuckets(Admitted(db, cutoff, samples));
    if n < |samples| {
      assert Faults(db, cutoff, samples[n]);
    } else if exists b | b in touched :: BucketFaults(b) {
      var b :| b in touched && BucketFaults(b);
      var s :| s in Admitted(db, cutoff, samples)
        && (b == BucketOf(s.scope, 1, s.timestamp) || b == BucketOf(s.scope, 2, s.timestamp));
      assert Faults(db, cutoff, s);
    } else {
      forall s | s in samples ensures !Faults(db, cutoff, s) {
        if Admits(db, cutoff, s) {
          assert BucketOf(s.scope, 1, s.timestamp) in touched && BucketOf(s.scope, 2, s.timestamp) in touched;
        }
      }
    }
  }

  lemma {:induction false} AdmittedExactly(db: Tables, cutoff: nat, samples: seq<Sample>)
    ensures forall s :: s in Admitted(db, cutoff, samples) <==> s in samples && Admits(db, cutoff, s)
  {
    hide Admits;
    if samples != [] {
      var n := |samples| - 1;
      AdmittedExactly(db, cutoff, samples[..n]);
      assert samples == samples[..n] + [samples[n]];
    }
  }

  lemma TouchedNext(accepted: seq<Sample>, s: Sample)
    ensures TouchedBuckets(accepted + [s]) ==
      TouchedBuckets(accepted) + {BucketOf(s.scope, 1, s.timestamp), BucketOf(s.scope, 2, s.timestamp)}
    ensures TouchedSeries(accepted + [s]) ==
      TouchedSeries(accepted) + {Series(s.scope, 0), Series(s.scope, 1), Series(s.scope, 2)}
  {
  }

  /** Everything the accepted samples leave behind. */
  ghost predicate Staged(points: map<Key, Row>, accepted: seq<Sample>, staged: map<Key, Row>, buckets: set<Bucket>,
      series: set<Series>) {
    && staged == InsertAll(points, accepted)
    && buckets == TouchedBuckets(accepted)
    && series == TouchedSeries(accepted)
  }

  lemma StagedIs(points: map<Key, Row>, accepted: seq<Sample>, staged: map<Key, Row>, buckets: set<Bucket>,
      series: set<Series>)
    requires Staged(points, accepted, staged, buckets, series)
    ensures staged == InsertAll(points, accepted)
    ensures buckets == TouchedBuckets(accepted) && series == TouchedSeries(accepted)
  {
  }

  lemma StagedNext(points: map<Key, Row>, accepted: seq<Sample>, s: Sample, staged: map<Key, Row>, buckets: set<Bucket>,
      series: set<Series>)
    requires Staged(points, accepted, staged, buckets, series)
    ensures Staged(points, accepted + [s], InsertSample(staged, s),
                   buckets + {BucketOf(s.scope, 1, s.timestamp), BucketOf(s.scope, 2, s.timestamp)},
                   series + {Series(s.scope, 0), Series(s.scope, 1), Series(s.scope, 2)})
  {
    hide InsertAll, InsertSample, TouchedBuckets, TouchedSeries, BucketOf;
    TouchedNext(accepted, s);
    InsertNext(points, accepted, s);
  }

  /** The loop ends after the last sample or at the first that cannot be converted. */
  lemma StagingEnds(db: Tables, now: U64, samples: seq<Sample>, i: nat, accepted: seq<Sample>, late: nat)
    requires i <= Reached(db, now, samples)
    requires i < |samples| ==> Unconvertible(db, now, samples[i])
    requires accepted == Admitted(db, AdmissionCutoff(db, now), samples[..i]) && late + |accepted| == i
    ensures i == Reached(db, now, samples) && late == LateCount(db, now, samples[..Reached(db, now, samples)])
    ensures i == |samples| ==> accepted == Admitted(db, AdmissionCutoff(db, now), samples)
  {
    hide Admitted, Reached, LateCount, Unconvertible, AdmissionCutoff;
    LateAreNotAdmitted(db, now, samples[..i]);
    if i == |samples| {
      assert samples[..i] == samples;
    }
  }

  /** Inserts the admissible samples in order and collects the buckets and series they touch. */
  method StageSamples(db: Tables, now: U64, samples: seq<Sample>)
    returns (ok: bool, staged: map<Key, Row>, buckets: set<Bucket>, series: set<Series>, late: nat)
    ensures ok <==> Reached(db, now, samples) == |samples|
    ensures ok ==> staged == InsertAll(db.points, Admitted(db, AdmissionCutoff(db, now), samples))
    ensures ok ==> buckets == TouchedBuckets(Admitted(db, AdmissionCutoff(db, now), samples))
    ensures ok ==> series == TouchedSeries(Admitted(db, AdmissionCutoff(db, now), samples))
    ensures late == LateCount(db, now, samples[..Reached(db, now, samples)])
  {
    var cutoff := Max(RawAdmissionCutoff(now), DecodeFloor(db.evidence));
    ok, staged, buckets, series, late := true, db.points, {}, {}, 0;
    ghost var accepted: seq<Sample> := [];
    assert Staged(db.points, accepted, staged, buckets, series);
    assert Admitted(db, cutoff, []) == [] && samples[..0] == [];
    assert cutoff == AdmissionCutoff(db, now);
    hide InsertFaults, Unconvertible, Admits, Admitted, InsertSample, Reached, BucketOf, Staged, LateCount,
      AdmissionCutoff, RawAdmissionCutoff, DecodeFloor, InsertAll, TouchedBuckets, TouchedSeries;
    for i := 0 to |samples|
      invariant ok && i <= Reached(db, now, samples)
      invariant accepted == Admitted(db, cutoff, samples[..i]) && late + |accepted| == i
      invariant Staged(db.points, accepted, staged, buckets, series)
    {
      var s := samples[i];
      InsertFaultsIffUnconvertible(db, now, s);
      if InsertFaults(db, cutoff, s) {
        StagingEnds(db, now, samples, i, accepted, late);
        ok := false;
        return;
      }
      AdmittedPrefix(db, cutoff, samples, i);
      if Admits(db, cutoff, s) {
        StagedNext(db.points, accepted, s, staged, buckets, series);
        accepted := accepted + [s];
        staged := InsertSample(staged, s);
        buckets := buckets + {BucketOf(s.scope, 1, s.timestamp), BucketOf(s.scope, 2, s.timestamp)};
        series := series + {Series(s.scope, 0), Series(s.scope, 1), Series(s.scope, 2)};
      } else {
        late := late + 1;
      }
    }
    StagingEnds(db, now, samples, |samples|, accepted, late);
    StagedIs(db.points, accepted, staged, buckets, series);
  }

  lemma InsertNext(points: map<Key, Row>, accepted: seq<Sample>, s: Sample)
    ensures InsertAll(points, accepted + [s]) == InsertSample(InsertAll(points, accepted), s)
  {
    assert (accepted + [s])[..|accepted|] == accepted;
  }

  /** Aggregates every touched bucket in turn, unless the end of one does not fit a SQLite integer. */
  method AggregateTouched(raw: map<Key, Row>, buckets: set<Bucket>) returns (ok: bool, staged: map<Key, Row>)
    requires forall b | b in buckets :: b.resolution != 0
    ensures ok <==> forall b | b in buckets :: !BucketFaults(b)
    ensures ok ==> staged == RollUp(raw, buckets)
  {
    hide BucketFaults;
    ok, staged := true, raw;
    var remaining := buckets;
    ghost var done: set<Bucket> := {};
    assert RollUp(raw, {}) == raw;
    while remaining != {}
      invariant done + remaining == buckets && done !! remaining && staged == RollUp(raw, done)
      invariant ok && forall b | b in done :: !BucketFaults(b)
      decreases remaining
    {
      var b :| b in remaining;
      if BucketFaults(b) {
        ok := false;
        return;
      }
      AggregateNext(raw, done, b);
      staged := AggregateBucket(staged, b);
      remaining, done := remaining - {b}, done + {b};
    }
    assert done == buckets;
  }

  /** Refreshes the latest flags of every touched series in turn. */
  method RefreshTouched(points: map<Key, Row>, series: set<Series>) returns (staged: map<Key, Row>)
    ensures staged == Refresh(points, series)
  {
    staged := points;
    var remaining := series;
    ghost var done: set<Series> := {};
    assert Refresh(points, {}) == points;
    while remaining != {}
      invariant done + remaining == series && done !! remaining && staged == Refresh(points, done)
      decreases remaining
    {
      var next :| next in remaining;
      RefreshNext(points, done, next);
      staged := Refresh(staged, {next});
      remaining, done := remaining - {next}, done + {next};
    }
    assert done == series;
  }
}
