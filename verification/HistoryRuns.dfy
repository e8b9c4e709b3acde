/**
 Every run of the history engine. Transactions interleave in any order with any clock
 readings; the roll-ups keep agreeing with the history that was never pruned, deleted
 buckets stay deleted, and the latest flags stay exact.
 */
module HistoryRuns {
  import opened Wrappers
  import opened HistoryTables

  /** The stored tables beside what was ever admitted and what was ever deleted. */
  datatype World = World(db: Tables, admitted: map<Point, real>, deleted: set<Bucket>)

  /** The steps the worker takes; a step whose guard fails or that rolls back changes nothing. */
  datatype Step =
    | PersistBatches(now: U64, samples: seq<Sample>)
    | RetentionChunk(resolution: nat, cutoff: nat, page: set<Bucket>, at: nat)
    | CapPrune(resolution: nat, page: set<Bucket>, at: nat)
    | RetireTombstones(resolution: nat, deletedBefore: nat, clock: U64, limit: nat, page: set<Bucket>)

  // ---------------------------------------------------------------------------
  // The never-pruned history
  // ---------------------------------------------------------------------------

  function Remember(admitted: map<Point, real>, s: Sample): map<Point, real> {
    admitted + map m | m in s.values :: Point(s.scope, s.timestamp, m) := s.values[m]
  }

  function RememberAll(admitted: map<Point, real>, samples: seq<Sample>): map<Point, real> {
    if samples == [] then admitted
    else Remember(RememberAll(admitted, samples[..|samples| - 1]), samples[|samples| - 1])
  }

  function Count(admitted: map<Point, real>, scope: Scope, metric: Metric, lo: nat, hi: nat): nat {
    if hi <= lo then 0
    else Count(admitted, scope, metric, lo, hi - 1) + if Point(scope, hi - 1, metric) in admitted then 1 else 0
  }

  function Total(admitted: map<Point, real>, scope: Scope, metric: Metric, lo: nat, hi: nat): real {
    if hi <= lo then 0.0
    else
      var p := Point(scope, hi - 1, metric);
      Total(admitted, scope, metric, lo, hi - 1) + if p in admitted then admitted[p] else 0.0
  }

  function CountIn(admitted: map<Point, real>, b: Bucket, metric: Metric): nat {
    Count(admitted, b.scope, metric, b.timestamp, b.timestamp + Width(b.resolution))
  }

  function TotalIn(admitted: map<Point, real>, b: Bucket, metric: Metric): real {
    Total(admitted, b.scope, metric, b.timestamp, b.timestamp + Width(b.resolution))
  }

  // ---------------------------------------------------------------------------
  // Steps
  // ---------------------------------------------------------------------------

  function Fresh(): World {
    World(Tables(map[], map[], 0), map[], {})
  }

  function Apply(w: World, step: Step): World {
    match step
    case PersistBatches(now, samples) =>
      (match Persist(w.db, now, samples)
       case None => w
       case Some(db) =>
         w.(db := db, admitted := RememberAll(w.admitted, Admitted(w.db, AdmissionCutoff(w.db, now), samples))))
    case RetentionChunk(resolution, cutoff, page, at) =>
      if RetentionPage(w.db.points, resolution, cutoff, page) then Deletes(w, page, at) else w
    case CapPrune(resolution, page, at) =>
      if CapPage(w.db.points, resolution, page) then Deletes(w, page, at) else w
    case RetireTombstones(resolution, deletedBefore, clock, limit, page) =>
      if RetirementPage(w.db, resolution, deletedBefore, RawAdmissionCutoff(clock), limit, page) then
        match Retire(w.db, page, RawAdmissionCutoff(clock))
        case None => w
        case Some(db) => w.(db := db)
      else w
  }

  function Deletes(w: World, page: set<Bucket>, at: nat): World {
    w.(db := DeletePage(w.db, page, at), deleted := w.deleted + page)
  }

  function Run(w: World, steps: seq<Step>): World {
    if steps == [] then w else Apply(Run(w, steps[..|steps| - 1]), steps[|steps| - 1])
  }

  // ---------------------------------------------------------------------------
  // The invariant
  // ---------------------------------------------------------------------------

  function RawKey(p: Point): Key {
    Key(p.scope, 0, p.timestamp, p.metric)
  }

  function PointOf(k: Key): Point {
    Point(k.scope, k.timestamp, k.metric)
  }

  /** Raw rows are remembered measurements with their last written value. */
  ghost predicate RawAgrees(points: map<Key, Row>, admitted: map<Point, real>) {
    forall k | k in points && k.resolution == 0 ::
      points[k].samples == 1 && PointOf(k) in admitted && admitted[PointOf(k)] == points[k].value
  }

  /** A measurement whose raw row is gone lies in a five-minute bucket nothing can enter. */
  ghost predicate GoneIsBlocked(db: Tables, points: map<Key, Row>, admitted: map<Point, real>) {
    forall p | p in admitted && RawKey(p) !in points :: Blocked(db, BucketOf(p.scope, 2, p.timestamp))
  }

  /** A roll-up row holds the count and the mean of the never-pruned history of its bucket. */
  ghost predicate RowExact(points: map<Key, Row>, admitted: map<Point, real>, k: Key)
    requires k in points
  {
    && Aligned(BucketFor(k))
    && points[k].samples == CountIn(admitted, BucketFor(k), k.metric)
    && points[k].samples > 0
    && points[k].value == TotalIn(admitted, BucketFor(k), k.metric) / points[k].samples as real
  }

  ghost predicate RollUpsExact(points: map<Key, Row>, admitted: map<Point, real>) {
    forall k | k in points && k.resolution != 0 :: k.resolution <= 2 && RowExact(points, admitted, k)
  }

  /** A roll-up row is missing only because its bucket was deleted. */
  ghost predicate NothingLost(points: map<Key, Row>, admitted: map<Point, real>, deleted: set<Bucket>) {
    forall p, r | p in admitted && 1 <= r <= 2 ::
      var b := BucketOf(p.scope, r, p.timestamp); KeyIn(b, p.metric) in points || b in deleted
  }

  /** No measurement can enter a deleted bucket. */
  ghost predicate Sealed(db: Tables, b: Bucket) {
    if b.resolution == 0 then Blocked(db, BucketOf(b.scope, 2, b.timestamp))
    else b.resolution <= 2 && Aligned(b) && Blocked(db, b)
  }

  ghost predicate DeletedStaysDeleted(db: Tables, deleted: set<Bucket>) {
    && (forall b | b in deleted :: Sealed(db, b))
    && (forall k | k in db.points :: BucketFor(k) !in deleted)
  }

  ghost predicate TombstonesAligned(tombstones: map<Bucket, nat>) {
    forall t | t in tombstones :: 1 <= t.resolution <= 2 && Aligned(t)
  }

  /** The latest flag marks exactly the rows of maximal timestamp of each series. */
  ghost predicate LatestExact(points: map<Key, Row>) {
    forall k | k in points :: points[k].latest <==> IsNewest(points, k)
  }

  ghost predicate Inv(w: World) {
    && RawAgrees(w.db.points, w.admitted)
    && GoneIsBlocked(w.db, w.db.points, w.admitted)
    && RollUpsExact(w.db.points, w.admitted)
    && NothingLost(w.db.points, w.admitted, w.deleted)
    && DeletedStaysDeleted(w.db, w.deleted)
    && TombstonesAligned(w.db.tombstones)
    && LatestExact(w.db.points)
  }

  // ---------------------------------------------------------------------------
  // Sums
  // ---------------------------------------------------------------------------

  /** Aggregating the raw rows equals aggregating the history they stand for. */
  lemma {:induction false} SumsAgree(points: map<Key, Row>, admitted: map<Point, real>, scope: Scope, metric: Metric,
      lo: nat, hi: nat)
    requires RawAgrees(points, admitted)
    requires forall t: nat | lo <= t < hi && Point(scope, t, metric) in admitted :: Key(scope, 0, t, metric) in points
    ensures RawCount(points, scope, metric, lo, hi) == Count(admitted, scope, metric, lo, hi)
    ensures RawTotal(points, scope, metric, lo, hi) == Total(admitted, scope, metric, lo, hi)
  {
    if lo < hi {
      SumsAgree(points, admitted, scope, metric, lo, hi - 1);
      var k := Key(scope, 0, hi - 1, metric);
      if k in points {
        assert PointOf(k) in admitted;
        assert points[k].value * points[k].samples as real == admitted[PointOf(k)];
      }
    }
  }

  /** Sums depend only on the history inside their range. */
  lemma {:induction false} SumsFrame(h: map<Point, real>, h': map<Point, real>, scope: Scope, metric: Metric,
      lo: nat, hi: nat)
    requires forall t: nat | lo <= t < hi ::
      var p := Point(scope, t, metric); (p in h <==> p in h') && (p in h ==> h[p] == h'[p])
    ensures Count(h, scope, metric, lo, hi) == Count(h', scope, metric, lo, hi)
    ensures Total(h, scope, metric, lo, hi) == Total(h', scope, metric, lo, hi)
  {
    if lo < hi {
      SumsFrame(h, h', scope, metric, lo, hi - 1);
      var p := Point(scope, hi - 1, metric);
      assert (p in h <==> p in h') && (p in h ==> h[p] == h'[p]);
    }
  }

  lemma {:induction false} CountPositive(h: map<Point, real>, scope: Scope, metric: Metric, lo: nat, hi: nat, t: nat)
    requires lo <= t < hi && Point(scope, t, metric) in h
    ensures Count(h, scope, metric, lo, hi) > 0
  {
    if t < hi - 1 {
      CountPositive(h, scope, metric, lo, hi - 1, t);
    }
  }

  // ---------------------------------------------------------------------------
  // Inserting samples
  // ---------------------------------------------------------------------------

  predicate Hits(samples: seq<Sample>, scope: Scope, timestamp: nat) {
    exists s | s in samples :: s.scope == scope && s.timestamp == timestamp
  }

  /** Raw rows and history grow together, and only at the timestamps of `samples`. */
  ghost predicate GrewAt(points: map<Key, Row>, admitted: map<Point, real>, points': map<Key, Row>,
      admitted': map<Point, real>, samples: seq<Sample>) {
    && (forall k | k in points ::
      k in points' && ((k.resolution == 0 && Hits(samples, k.scope, k.timestamp)) || points'[k] == points[k]))
    && (forall k | k in points' && k !in points :: k.resolution == 0 && Hits(samples, k.scope, k.timestamp))
    && (forall p | p in admitted' && !Hits(samples, p.scope, p.timestamp) ::
      p in admitted && admitted'[p] == admitted[p])
    && (forall p | p in admitted :: p in admitted')
    && (forall p | p in admitted' && RawKey(p) !in points' :: p in admitted && RawKey(p) !in points)
  }

  lemma InsertOneAgrees(points: map<Key, Row>, admitted: map<Point, real>, s: Sample)
    requires RawAgrees(points, admitted)
    ensures RawAgrees(InsertSample(points, s), Remember(admitted, s))
  {
  }

  lemma InsertOneGrows(points: map<Key, Row>, admitted: map<Point, real>, s: Sample)
    ensures GrewAt(points, admitted, InsertSample(points, s), Remember(admitted, s), [s])
  {
    assert s in [s] && Hits([s], s.scope, s.timestamp);
  }

  lemma GrewTwice(p0: map<Key, Row>, a0: map<Point, real>, p1: map<Key, Row>, a1: map<Point, real>,
      p2: map<Key, Row>, a2: map<Point, real>, first: seq<Sample>, s: Sample)
    requires GrewAt(p0, a0, p1, a1, first) && GrewAt(p1, a1, p2, a2, [s])
    ensures GrewAt(p0, a0, p2, a2, first + [s])
  {
  }

  /** What a run of inserts does to the raw rows and to the history. */
  lemma {:induction false} InsertFacts(points: map<Key, Row>, admitted: map<Point, real>, samples: seq<Sample>)
    requires RawAgrees(points, admitted)
    ensures RawAgrees(InsertAll(points, samples), RememberAll(admitted, samples))
    ensures GrewAt(points, admitted, InsertAll(points, samples), RememberAll(admitted, samples), samples)
  {
    if samples != [] {
      var n := |samples| - 1;
      var s := samples[n];
      InsertFacts(points, admitted, samples[..n]);
      var p1, a1 := InsertAll(points, samples[..n]), RememberAll(admitted, samples[..n]);
      InsertOneAgrees(p1, a1, s);
      InsertOneGrows(p1, a1, s);
      GrewTwice(points, admitted, p1, a1, InsertSample(p1, s), Remember(a1, s), samples[..n], s);
      assert samples[..n] + [s] == samples;
    }
  }

  // ---------------------------------------------------------------------------
  // The batch transaction
  // ---------------------------------------------------------------------------

  /** Both buckets of the sample can still be written. */
  ghost predicate Open(db: Tables, s: Sample) {
    !Blocked(db, BucketOf(s.scope, 1, s.timestamp)) && !Blocked(db, BucketOf(s.scope, 2, s.timestamp))
  }

  /** Admission honours both the tombstones and the durable floor. */
  lemma {:induction false} AdmittedAreOpen(db: Tables, now: U64, samples: seq<Sample>)
    ensures forall s | s in Admitted(db, AdmissionCutoff(db, now), samples) :: s in samples && Open(db, s)
  {
    if samples != [] {
      AdmittedAreOpen(db, now, samples[..|samples| - 1]);
    }
  }

  lemma SameBucket(b: Bucket, t: nat)
    requires 1 <= b.resolution <= 2 && Aligned(b) && b.timestamp <= t < b.timestamp + Width(b.resolution)
    ensures BucketStart(t, b.resolution) == b.timestamp
  {
    var start := BucketStart(t, b.resolution);
    if b.resolution == 1 {
      OneMinuteStart(start, b.timestamp, t);
    } else {
      OneFiveMinuteStart(start, b.timestamp, t);
    }
  }

  lemma OneMinuteStart(a: nat, b: nat, t: nat)
    requires a % MINUTE_BUCKET_MILLIS == 0 && a <= t < a + MINUTE_BUCKET_MILLIS
    requires b % MINUTE_BUCKET_MILLIS == 0 && b <= t < b + MINUTE_BUCKET_MILLIS
    ensures a == b
  {
    var x, y := a / MINUTE_BUCKET_MILLIS, b / MINUTE_BUCKET_MILLIS;
    assert a == x * MINUTE_BUCKET_MILLIS && b == y * MINUTE_BUCKET_MILLIS;
  }

  lemma OneFiveMinuteStart(a: nat, b: nat, t: nat)
    requires a % FIVE_MINUTE_BUCKET_MILLIS == 0 && a <= t < a + FIVE_MINUTE_BUCKET_MILLIS
    requires b % FIVE_MINUTE_BUCKET_MILLIS == 0 && b <= t < b + FIVE_MINUTE_BUCKET_MILLIS
    ensures a == b
  {
    var x, y := a / FIVE_MINUTE_BUCKET_MILLIS, b / FIVE_MINUTE_BUCKET_MILLIS;
    assert a == x * FIVE_MINUTE_BUCKET_MILLIS && b == y * FIVE_MINUTE_BUCKET_MILLIS;
  }

  /** A one-minute or five-minute bucket lies inside one five-minute bucket. */
  lemma SameFiveMinutes(b: Bucket, t: nat, u: nat)
    requires 1 <= b.resolution <= 2 && Aligned(b)
    requires b.timestamp <= t < b.timestamp + Width(b.resolution)
    requires b.timestamp <= u < b.timestamp + Width(b.resolution)
    ensures BucketStart(t, 2) == BucketStart(u, 2)
  {
    var n := b.timestamp / FIVE_MINUTE_BUCKET_MILLIS;
    if b.resolution == 1 {
      var m := b.timestamp / MINUTE_BUCKET_MILLIS;
      assert b.timestamp == m * MINUTE_BUCKET_MILLIS && 5 * n <= m <= 5 * n + 4;
    }
    InFiveMinutes(t, n);
    InFiveMinutes(u, n);
  }

  lemma InFiveMinutes(t: nat, n: nat)
    requires n * FIVE_MINUTE_BUCKET_MILLIS <= t < (n + 1) * FIVE_MINUTE_BUCKET_MILLIS
    ensures BucketStart(t, 2) == n * FIVE_MINUTE_BUCKET_MILLIS
  {
    assert t / FIVE_MINUTE_BUCKET_MILLIS == n;
  }

  lemma {:induction false} CountWitness(h: map<Point, real>, scope: Scope, metric: Metric, lo: nat,
      hi: nat) returns (t: nat)
    requires Count(h, scope, metric, lo, hi) > 0
    ensures lo <= t < hi && Point(scope, t, metric) in h
  {
    if Point(scope, hi - 1, metric) in h {
      t := hi - 1;
    } else {
      t := CountWitness(h, scope, metric, lo, hi - 1);
    }
  }

  /** The state between the inserts and the roll-up of one transaction. */
  ghost predicate Midway(db: Tables, a0: map<Point, real>, p1: map<Key, Row>, a1: map<Point, real>, adm: seq<Sample>) {
    && GoneIsBlocked(db, db.points, a0)
    && (forall s | s in adm :: Open(db, s))
    && RawAgrees(p1, a1)
    && GrewAt(db.points, a0, p1, a1, adm)
  }

  lemma TouchedBy(adm: seq<Sample>, b: Bucket) returns (s: Sample)
    requires b in TouchedBuckets(adm)
    ensures s in adm && 1 <= b.resolution <= 2 && b == BucketOf(s.scope, b.resolution, s.timestamp)
  {
    if b.resolution == 1 {
      s :| s in adm && b == BucketOf(s.scope, 1, s.timestamp);
    } else {
      s :| s in adm && b == BucketOf(s.scope, 2, s.timestamp);
    }
  }

  lemma HitTouches(adm: seq<Sample>, b: Bucket, t: nat)
    requires 1 <= b.resolution <= 2 && Aligned(b) && InBucket(b, b.scope, t) && Hits(adm, b.scope, t)
    ensures b in TouchedBuckets(adm)
  {
    SameBucket(b, t);
    var s :| s in adm && s.scope == b.scope && s.timestamp == t;
    assert BucketOf(s.scope, b.resolution, s.timestamp) == b;
  }

  /** In a touched bucket every remembered measurement still has its raw row. */
  lemma TouchedIsComplete(db: Tables, a0: map<Point, real>, p1: map<Key, Row>, a1: map<Point, real>,
      adm: seq<Sample>, b: Bucket, p: Point)
    requires Midway(db, a0, p1, a1, adm) && b in TouchedBuckets(adm)
    requires p in a1 && InBucket(b, p.scope, p.timestamp)
    ensures RawKey(p) in p1
  {
    var s := TouchedBy(adm, b);
    SameFiveMinutes(b, s.timestamp, p.timestamp);
    assert Open(db, s);
  }

  lemma TouchedSums(db: Tables, a0: map<Point, real>, p1: map<Key, Row>, a1: map<Point, real>, adm: seq<Sample>,
      b: Bucket, m: Metric)
    requires Midway(db, a0, p1, a1, adm) && b in TouchedBuckets(adm)
    ensures RawCount(p1, b.scope, m, b.timestamp, b.timestamp + Width(b.resolution)) == CountIn(a1, b, m)
    ensures RawTotal(p1, b.scope, m, b.timestamp, b.timestamp + Width(b.resolution)) == TotalIn(a1, b, m)
  {
    hide TouchedBuckets, RawCount, RawTotal, Count, Total;
    var lo, hi := b.timestamp, b.timestamp + Width(b.resolution);
    forall t: nat | lo <= t < hi && Point(b.scope, t, m) in a1 ensures Key(b.scope, 0, t, m) in p1 {
      TouchedIsComplete(db, a0, p1, a1, adm, b, Point(b.scope, t, m));
    }
    SumsAgree(p1, a1, b.scope, m, lo, hi);
  }

  lemma GroupedIsCounted(p1: map<Key, Row>, a1: map<Point, real>, b: Bucket, m: Metric)
    requires RawAgrees(p1, a1) && m in MetricsIn(p1, b)
    ensures CountIn(a1, b, m) > 0
  {
    var k :| k in p1 && k.resolution == 0 && InBucket(b, k.scope, k.timestamp) && k.metric == m;
    CountPositive(a1, b.scope, m, b.timestamp, b.timestamp + Width(b.resolution), k.timestamp);
  }

  /** A freshly aggregated row is exact. */
  lemma TouchedRowExact(db: Tables, a0: map<Point, real>, p1: map<Key, Row>, a1: map<Point, real>, adm: seq<Sample>,
      b: Bucket, m: Metric)
    requires Midway(db, a0, p1, a1, adm) && b in TouchedBuckets(adm) && m in MetricsIn(p1, b)
    ensures Aligned(b) && 1 <= b.resolution <= 2
    ensures var row := AggregateRow(p1, b, m);
      && row.samples == CountIn(a1, b, m) && row.samples > 0
      && row.value == TotalIn(a1, b, m) / row.samples as real
  {
    hide TouchedBuckets, MetricsIn, RawCount, RawTotal;
    var s := TouchedBy(adm, b);
    TouchedSums(db, a0, p1, a1, adm, b, m);
    GroupedIsCounted(p1, a1, b, m);
  }

  /** A row of an untouched bucket stays exact. */
  lemma UntouchedRowExact(db: Tables, a0: map<Point, real>, p1: map<Key, Row>, a1: map<Point, real>,
      adm: seq<Sample>, k: Key)
    requires Midway(db, a0, p1, a1, adm)
    requires k in db.points && 1 <= k.resolution <= 2 && BucketFor(k) !in TouchedBuckets(adm)
    requires RowExact(db.points, a0, k)
    ensures RowExact(db.points, a1, k)
  {
    hide TouchedBuckets, GoneIsBlocked, RawAgrees, BucketStart, Count, Total;
    var b := BucketFor(k);
    forall t: nat | b.timestamp <= t < b.timestamp + Width(b.resolution)
      ensures var p := Point(k.scope, t, k.metric);
        (p in a0 <==> p in a1) && (p in a1 ==> a0[p] == a1[p])
    {
      if Hits(adm, k.scope, t) {
        HitTouches(adm, b, t);
      }
    }
    SumsFrame(a0, a1, k.scope, k.metric, b.timestamp, b.timestamp + Width(b.resolution));
  }

  /** A touched bucket's rows are all aggregated again. */
  lemma TouchedRowIsAggregated(db: Tables, a0: map<Point, real>, p1: map<Key, Row>, a1: map<Point, real>,
      adm: seq<Sample>, k: Key)
    requires Midway(db, a0, p1, a1, adm)
    requires k in db.points && 1 <= k.resolution <= 2 && BucketFor(k) in TouchedBuckets(adm)
    requires RowExact(db.points, a0, k)
    ensures k.metric in MetricsIn(p1, BucketFor(k))
  {
    hide TouchedBuckets, Count;
    var b := BucketFor(k);
    var t := CountWitness(a0, k.scope, k.metric, b.timestamp, b.timestamp + Width(b.resolution));
    var p := Point(k.scope, t, k.metric);
    assert p in a1;
    TouchedIsComplete(db, a0, p1, a1, adm, b, p);
    assert RawKey(p) in p1;
  }

  predicate Regrouped(p1: map<Key, Row>, touched: set<Bucket>, k: Key) {
    BucketFor(k) in touched && k.metric in MetricsIn(p1, BucketFor(k))
  }

  lemma RollUpAt(p1: map<Key, Row>, touched: set<Bucket>, k: Key)
    ensures k in RollUp(p1, touched) <==> k in p1 || Regrouped(p1, touched, k)
    ensures k in RollUp(p1, touched) ==>
      RollUp(p1, touched)[k] == if Regrouped(p1, touched, k) then AggregateRow(p1, BucketFor(k), k.metric) else p1[k]
  {
  }

  /** What one key holds after the whole transaction, up to its latest flag. */
  lemma StoredAt(points: map<Key, Row>, adm: seq<Sample>, k: Key)
    ensures var p1 := InsertAll(points, adm); var p3 := StoredPoints(points, adm); var touched := TouchedBuckets(adm);
      && (k in p3 <==> k in p1 || Regrouped(p1, touched, k))
      && (k in p3 ==>
            var row := if Regrouped(p1, touched, k) then AggregateRow(p1, BucketFor(k), k.metric) else p1[k];
            p3[k].value == row.value && p3[k].samples == row.samples)
  {
    hide InsertAll, TouchedBuckets, RollUp, AggregateRow, Regrouped, IsNewest;
    RollUpAt(InsertAll(points, adm), TouchedBuckets(adm), k);
  }

  lemma PersistKeepsRaw(db: Tables, a0: map<Point, real>, p1: map<Key, Row>, a1: map<Point, real>, adm: seq<Sample>)
    requires p1 == InsertAll(db.points, adm) && Midway(db, a0, p1, a1, adm)
    ensures RawAgrees(StoredPoints(db.points, adm), a1)
    ensures GoneIsBlocked(db, StoredPoints(db.points, adm), a1)
  {
    hide StoredPoints, InsertAll, TouchedBuckets, BucketStart, AggregateRow;
    var p3 := StoredPoints(db.points, adm);
    forall k: Key | k.resolution == 0
      ensures k in p3 <==> k in p1
      ensures k in p3 ==> p3[k].value == p1[k].value && p3[k].samples == p1[k].samples
    {
      StoredAt(db.points, adm, k);
      if BucketFor(k) in TouchedBuckets(adm) {
        var s := TouchedBy(adm, BucketFor(k));
      }
    }
  }

  lemma PersistKeepsRow(db: Tables, a0: map<Point, real>, p1: map<Key, Row>, a1: map<Point, real>, adm: seq<Sample>,
      k: Key)
    requires p1 == InsertAll(db.points, adm) && Midway(db, a0, p1, a1, adm) && RollUpsExact(db.points, a0)
    requires k in StoredPoints(db.points, adm) && k.resolution != 0
    ensures k.resolution <= 2 && RowExact(StoredPoints(db.points, adm), a1, k)
  {
    hide StoredPoints, InsertAll, TouchedBuckets, BucketStart, GoneIsBlocked, RawAgrees;
    StoredAt(db.points, adm, k);
    var touched := TouchedBuckets(adm);
    if Regrouped(p1, touched, k) {
      TouchedRowExact(db, a0, p1, a1, adm, BucketFor(k), k.metric);
    } else {
      assert k in db.points && p1[k] == db.points[k];
      assert RowExact(db.points, a0, k);
      if BucketFor(k) in touched {
        TouchedRowIsAggregated(db, a0, p1, a1, adm, k);
      } else {
        UntouchedRowExact(db, a0, p1, a1, adm, k);
      }
    }
  }

  lemma PersistKeepsRollUp(db: Tables, a0: map<Point, real>, p1: map<Key, Row>, a1: map<Point, real>,
      adm: seq<Sample>, deleted: set<Bucket>, p: Point, r: nat)
    requires p1 == InsertAll(db.points, adm) && Midway(db, a0, p1, a1, adm) && NothingLost(db.points, a0, deleted)
    requires p in a1 && 1 <= r <= 2
    ensures var b := BucketOf(p.scope, r, p.timestamp);
      KeyIn(b, p.metric) in StoredPoints(db.points, adm) || b in deleted
  {
    hide StoredPoints, InsertAll, TouchedBuckets, GoneIsBlocked, RawAgrees, AggregateRow;
    var b := BucketOf(p.scope, r, p.timestamp);
    StoredAt(db.points, adm, KeyIn(b, p.metric));
    if Hits(adm, p.scope, p.timestamp) {
      HitTouches(adm, b, p.timestamp);
      TouchedIsComplete(db, a0, p1, a1, adm, b, p);
      assert RawKey(p) in p1 && p.metric in MetricsIn(p1, b);
    } else {
      assert KeyIn(b, p.metric) in db.points || b in deleted;
    }
  }

  lemma PersistLosesNothing(db: Tables, a0: map<Point, real>, p1: map<Key, Row>, a1: map<Point, real>,
      adm: seq<Sample>, deleted: set<Bucket>)
    requires p1 == InsertAll(db.points, adm) && Midway(db, a0, p1, a1, adm) && NothingLost(db.points, a0, deleted)
    ensures NothingLost(StoredPoints(db.points, adm), a1, deleted)
  {
    hide StoredPoints, InsertAll, Midway, BucketStart;
    forall p, r | p in a1 && 1 <= r <= 2
      ensures var b := BucketOf(p.scope, r, p.timestamp);
        KeyIn(b, p.metric) in StoredPoints(db.points, adm) || b in deleted
    {
      PersistKeepsRollUp(db, a0, p1, a1, adm, deleted, p, r);
    }
  }

  lemma PersistRevivesNothing(db: Tables, a0: map<Point, real>, p1: map<Key, Row>, a1: map<Point, real>,
      adm: seq<Sample>, deleted: set<Bucket>, k: Key)
    requires p1 == InsertAll(db.points, adm) && Midway(db, a0, p1, a1, adm) && DeletedStaysDeleted(db, deleted)
    requires k in StoredPoints(db.points, adm)
    ensures BucketFor(k) !in deleted
  {
    hide StoredPoints, InsertAll, TouchedBuckets, GoneIsBlocked, RawAgrees, AggregateRow;
    StoredAt(db.points, adm, k);
    if k !in db.points {
      if Regrouped(p1, TouchedBuckets(adm), k) {
        var s := TouchedBy(adm, BucketFor(k));
        assert Open(db, s) && !Sealed(db, BucketFor(k));
      } else {
        var s :| s in adm && s.scope == k.scope && s.timestamp == k.timestamp;
        assert Open(db, s) && !Sealed(db, BucketFor(k));
      }
    }
  }

  lemma HitTouchesSeries(adm: seq<Sample>, scope: Scope, t: nat, r: nat)
    requires Hits(adm, scope, t) && r <= 2
    ensures Series(scope, r) in TouchedSeries(adm)
  {
    var s :| s in adm && s.scope == scope && s.timestamp == t;
    assert s in adm && r in {0, 1, 2} && Series(s.scope, r) == Series(scope, r);
  }

  lemma BucketTouchesSeries(adm: seq<Sample>, b: Bucket)
    requires b in TouchedBuckets(adm)
    ensures Series(b.scope, b.resolution) in TouchedSeries(adm)
  {
  }

  lemma NewKeysAreTouched(db: Tables, a0: map<Point, real>, p1: map<Key, Row>, a1: map<Point, real>,
      adm: seq<Sample>, k: Key)
    requires p1 == InsertAll(db.points, adm) && Midway(db, a0, p1, a1, adm)
    requires SeriesOf(k) !in TouchedSeries(adm) && k.resolution <= 2
    ensures var p2 := RollUp(p1, TouchedBuckets(adm)); k in p2 <==> k in db.points
  {
    RollUpAt(p1, TouchedBuckets(adm), k);
    if k in p1 && k !in db.points {
      HitTouchesSeries(adm, k.scope, k.timestamp, 0);
    }
    if BucketFor(k) in TouchedBuckets(adm) {
      BucketTouchesSeries(adm, BucketFor(k));
    }
  }

  lemma PersistKeepsFlags(db: Tables, a0: map<Point, real>, p1: map<Key, Row>, a1: map<Point, real>, adm: seq<Sample>)
    requires p1 == InsertAll(db.points, adm) && Midway(db, a0, p1, a1, adm)
    requires LatestExact(db.points)
    requires forall k | k in db.points :: k.resolution <= 2
    ensures LatestExact(StoredPoints(db.points, adm))
  {
    var p2 := RollUp(p1, TouchedBuckets(adm));
    var p3 := StoredPoints(db.points, adm);
    forall k | k in p3 ensures p3[k].latest <==> IsNewest(p3, k) {
      assert IsNewest(p3, k) == IsNewest(p2, k);
      if SeriesOf(k) !in TouchedSeries(adm) {
        UntouchedFlag(db, a0, p1, a1, adm, k);
      }
    }
  }

  lemma UntouchedFlag(db: Tables, a0: map<Point, real>, p1: map<Key, Row>, a1: map<Point, real>, adm: seq<Sample>,
      k: Key)
    requires p1 == InsertAll(db.points, adm) && Midway(db, a0, p1, a1, adm)
    requires LatestExact(db.points)
    requires forall k | k in db.points :: k.resolution <= 2
    requires var p2 := RollUp(p1, TouchedBuckets(adm)); k in p2 && SeriesOf(k) !in TouchedSeries(adm)
    ensures var p2 := RollUp(p1, TouchedBuckets(adm)); p2[k].latest <==> IsNewest(p2, k)
  {
    var p2 := RollUp(p1, TouchedBuckets(adm));
    ResolutionAtMostTwo(db, a0, p1, a1, adm, k);
    forall j: Key | j.scope == k.scope && j.resolution == k.resolution ensures j in p2 <==> j in db.points {
      NewKeysAreTouched(db, a0, p1, a1, adm, j);
    }
    RollUpAt(p1, TouchedBuckets(adm), k);
    if BucketFor(k) in TouchedBuckets(adm) {
      BucketTouchesSeries(adm, BucketFor(k));
    }
    if Hits(adm, k.scope, k.timestamp) {
      HitTouchesSeries(adm, k.scope, k.timestamp, k.resolution);
    }
  }

  lemma ResolutionAtMostTwo(db: Tables, a0: map<Point, real>, p1: map<Key, Row>, a1: map<Point, real>,
      adm: seq<Sample>, k: Key)
    requires Midway(db, a0, p1, a1, adm) && (forall k | k in db.points :: k.resolution <= 2)
    requires k in RollUp(p1, TouchedBuckets(adm))
    ensures k.resolution <= 2
  {
    RollUpAt(p1, TouchedBuckets(adm), k);
    if Regrouped(p1, TouchedBuckets(adm), k) {
      var s := TouchedBy(adm, BucketFor(k));
    }
  }

  lemma StoreKeepsInv(w: World, adm: seq<Sample>)
    requires Inv(w) && forall s | s in adm :: Open(w.db, s)
    ensures Inv(w.(db := w.db.(points := StoredPoints(w.db.points, adm)), admitted := RememberAll(w.admitted, adm)))
  {
    var db, a0 := w.db, w.admitted;
    var p1, a1 := InsertAll(db.points, adm), RememberAll(a0, adm);
    InsertFacts(db.points, a0, adm);
    assert Midway(db, a0, p1, a1, adm);
    PersistKeepsRaw(db, a0, p1, a1, adm);
    var p3 := StoredPoints(db.points, adm);
    var db' := db.(points := p3);
    assert forall b :: Blocked(db, b) <==> Blocked(db', b);
    assert GoneIsBlocked(db', p3, a1);
    assert RollUpsExact(p3, a1) by {
      forall k | k in p3 && k.resolution != 0 ensures k.resolution <= 2 && RowExact(p3, a1, k) {
        PersistKeepsRow(db, a0, p1, a1, adm, k);
      }
    }
    PersistLosesNothing(db, a0, p1, a1, adm, w.deleted);
    assert DeletedStaysDeleted(db', w.deleted) by {
      forall k | k in p3 ensures BucketFor(k) !in w.deleted {
        PersistRevivesNothing(db, a0, p1, a1, adm, w.deleted, k);
      }
      forall b | b in w.deleted ensures Sealed(db', b) { assert Sealed(db, b); }
    }
    PersistKeepsFlags(db, a0, p1, a1, adm);
  }

  /** A batch transaction, committed or rolled back, keeps the whole invariant. */
  lemma {:induction false} PersistKeepsInv(w: World, now: U64, samples: seq<Sample>)
    requires Inv(w)
    ensures Inv(Apply(w, PersistBatches(now, samples)))
  {
    hide StoredPoints, Admitted, Faults, Open, Inv;
    AdmittedAreOpen(w.db, now, samples);
    StoreKeepsInv(w, Admitted(w.db, AdmissionCutoff(w.db, now), samples));
  }

  // ---------------------------------------------------------------------------
  // Deletions
  // ---------------------------------------------------------------------------

  /** No surviving row becomes newest by the deletion. */
  ghost predicate KeepsNewest(points: map<Key, Row>, page: set<Bucket>) {
    forall k, j | k in points && BucketFor(k) !in page && j in points && BucketFor(j) in page
      && SeriesOf(j) == SeriesOf(k) && k.timestamp < j.timestamp ::
      exists top | top in points ::
        BucketFor(top) !in page && SeriesOf(top) == SeriesOf(k) && k.timestamp < top.timestamp
  }

  lemma DeleteKeepsFlags(db: Tables, page: set<Bucket>, at: nat)
    requires LatestExact(db.points) && KeepsNewest(db.points, page)
    ensures LatestExact(DeletePage(db, page, at).points)
  {
    var points, points' := db.points, DeletePage(db, page, at).points;
    forall k | k in points' ensures IsNewest(points', k) <==> IsNewest(points, k) {
      if !IsNewest(points, k) {
        var j :| j in points && j.scope == k.scope && j.resolution == k.resolution && j.timestamp > k.timestamp;
        if BucketFor(j) in page {
          assert SeriesOf(j) == SeriesOf(k);
          var top :| top in points && BucketFor(top) !in page && SeriesOf(top) == SeriesOf(k)
            && k.timestamp < top.timestamp;
          assert top in points' && top.scope == k.scope && top.resolution == k.resolution;
        } else {
          assert j in points';
        }
      }
    }
  }

  lemma EntombedIsBlocked(db: Tables, page: set<Bucket>, at: nat, b: Bucket)
    requires b in page && TombstonesAligned(db.tombstones)
    ensures forall t | t in Tombstones(b) :: t in DeletePage(db, page, at).tombstones
  {
  }

  lemma DeleteKeepsTombstones(db: Tables, page: set<Bucket>, at: nat, admitted: map<Point, real>)
    requires TombstonesAligned(db.tombstones) && RollUpsExact(db.points, admitted)
    requires forall b | b in page :: exists k | k in db.points :: BucketFor(k) == b
    ensures TombstonesAligned(DeletePage(db, page, at).tombstones)
    ensures forall b | b in page :: Sealed(DeletePage(db, page, at), b)
  {
    var db' := DeletePage(db, page, at);
    forall b | b in page
      ensures Sealed(db', b) && forall t | t in Tombstones(b) :: 1 <= t.resolution <= 2 && Aligned(t)
    {
      var k :| k in db.points && BucketFor(k) == b;
      EntombedIsBlocked(db, page, at, b);
      if b.resolution == 0 {
        assert BucketOf(b.scope, 2, b.timestamp) in Tombstones(b);
      } else {
        assert RowExact(db.points, admitted, k);
        assert b in Tombstones(b);
      }
    }
    forall t | t in db'.tombstones ensures 1 <= t.resolution <= 2 && Aligned(t) {
      if t in TombstonesOf(page) {
        var b :| b in page && t in Tombstones(b);
      }
    }
  }

  lemma DeleteKeepsHistory(w: World, page: set<Bucket>, at: nat)
    requires Inv(w) && forall b | b in page :: Sealed(DeletePage(w.db, page, at), b)
    ensures var w' := Deletes(w, page, at);
      GoneIsBlocked(w'.db, w'.db.points, w'.admitted) && DeletedStaysDeleted(w'.db, w'.deleted)
  {
  }

  /** Deleting stored buckets keeps the whole invariant when the newest rows survive. */
  lemma DeleteKeepsInv(w: World, page: set<Bucket>, at: nat)
    requires Inv(w) && KeepsNewest(w.db.points, page)
    requires forall b | b in page :: exists k | k in w.db.points :: BucketFor(k) == b
    ensures Inv(Deletes(w, page, at))
  {
    hide EntombAll, BucketStart, Count, Total;
    DeleteKeepsTombstones(w.db, page, at, w.admitted);
    DeleteKeepsHistory(w, page, at);
    DeleteKeepsFlags(w.db, page, at);
    var w' := Deletes(w, page, at);
    assert RollUpsExact(w'.db.points, w'.admitted) by {
      forall k | k in w'.db.points && k.resolution != 0
        ensures k.resolution <= 2 && RowExact(w'.db.points, w'.admitted, k)
      {
        assert RowExact(w.db.points, w.admitted, k);
      }
    }
    assert NothingLost(w'.db.points, w'.admitted, w'.deleted) by {
      forall p, r | p in w.admitted && 1 <= r <= 2
        ensures var b := BucketOf(p.scope, r, p.timestamp); KeyIn(b, p.metric) in w'.db.points || b in w'.deleted
      {
        var b := BucketOf(p.scope, r, p.timestamp);
        assert KeyIn(b, p.metric) in w.db.points || b in w.deleted;
        assert BucketFor(KeyIn(b, p.metric)) == b;
      }
    }
  }

  /** Retention deletes each series oldest first, so a survivor is newer than all that went. */
  lemma RetentionKeepsNewest(points: map<Key, Row>, resolution: nat, cutoff: nat, page: set<Bucket>)
    requires RetentionPage(points, resolution, cutoff, page)
    ensures KeepsNewest(points, page)
    ensures forall b | b in page :: exists k | k in points :: BucketFor(k) == b
  {
    var expired := Expired(points, resolution, cutoff);
    forall b | b in page ensures b in expired {
      assert b in OfServer(page) || b in OfClients(page);
    }
    forall k, j | k in points && j in points && BucketFor(j) in page && SeriesOf(j) == SeriesOf(k)
      && k.timestamp < j.timestamp
      ensures BucketFor(k) in page
    {
      assert BucketFor(k) in expired && Before(BucketFor(k), BucketFor(j));
      if k.scope.Server? {
        assert BucketFor(k) in OfServer(expired) && BucketFor(j) in OfServer(page);
      } else {
        assert BucketFor(k) in OfClients(expired) && BucketFor(j) in OfClients(page);
      }
    }
  }

  /** Above every row of a series stands one of maximal timestamp. */
  lemma NewestAbove(points: map<Key, Row>, j: Key) returns (top: Key)
    requires j in points
    ensures top in points && SeriesOf(top) == SeriesOf(j) && j.timestamp <= top.timestamp && IsNewest(points, top)
    decreases set k | k in points && k.timestamp > j.timestamp
  {
    if IsNewest(points, j) {
      top := j;
    } else {
      var next :| next in points && next.scope == j.scope && next.resolution == j.resolution
        && next.timestamp > j.timestamp;
      var above, aboveNext := (set k | k in points && k.timestamp > j.timestamp),
        (set k | k in points && k.timestamp > next.timestamp);
      assert next in above && next !in aboveNext;
      top := NewestAbove(points, next);
    }
  }

  /** The cap only selects buckets whose rows are not flagged, so the newest bucket survives. */
  lemma CapKeepsNewest(points: map<Key, Row>, resolution: nat, page: set<Bucket>)
    requires CapPage(points, resolution, page) && LatestExact(points)
    ensures KeepsNewest(points, page)
    ensures forall b | b in page :: exists k | k in points :: BucketFor(k) == b
    ensures forall k | k in points && IsNewest(points, k) :: BucketFor(k) !in page
  {
    forall k | k in points && BucketFor(k) in NotLatest(points, resolution) ensures !IsNewest(points, k) {
      var j :| j in points && j.resolution == resolution && !points[j].latest && BucketFor(j) == BucketFor(k);
      assert !IsNewest(points, j);
    }
    forall k, j | k in points && BucketFor(k) !in page && j in points && BucketFor(j) in page
      && SeriesOf(j) == SeriesOf(k) && k.timestamp < j.timestamp
      ensures exists top | top in points ::
        BucketFor(top) !in page && SeriesOf(top) == SeriesOf(k) && k.timestamp < top.timestamp
    {
      var top := NewestAbove(points, j);
    }
  }

  // ---------------------------------------------------------------------------
  // Tombstone retirement
  // ---------------------------------------------------------------------------

  /** A retired tombstone's whole bucket lies below the raised floor. */
  lemma RetiredIsBelowFloor(t: Bucket, cutoff: nat)
    requires 1 <= t.resolution <= 2 && Aligned(t) && t.timestamp < cutoff && cutoff % FIVE_MINUTE_BUCKET_MILLIS == 0
    ensures t.timestamp + Width(t.resolution) <= cutoff
  {
    var c := cutoff / FIVE_MINUTE_BUCKET_MILLIS;
    assert cutoff == c * FIVE_MINUTE_BUCKET_MILLIS;
    if t.resolution == 2 {
      var n := t.timestamp / FIVE_MINUTE_BUCKET_MILLIS;
      assert t.timestamp == n * FIVE_MINUTE_BUCKET_MILLIS && n < c;
    } else {
      var n := t.timestamp / MINUTE_BUCKET_MILLIS;
      assert t.timestamp == n * MINUTE_BUCKET_MILLIS && n < 5 * c;
    }
  }

  lemma RetireKeepsBlocked(db: Tables, page: set<Bucket>, cutoff: nat, b: Bucket)
    requires Retire(db, page, cutoff).Some? && TombstonesAligned(db.tombstones)
    requires cutoff % FIVE_MINUTE_BUCKET_MILLIS == 0
    requires forall t | t in page :: t in db.tombstones && t.timestamp < cutoff
    requires Blocked(db, b)
    ensures Blocked(Retire(db, page, cutoff).value, b)
  {
    if page != {} {
      RaisedFloorIsMaximum(db.evidence, cutoff);
      if b in page {
        RetiredIsBelowFloor(b, cutoff);
      }
    }
  }

  lemma RetireKeepsInv(w: World, page: set<Bucket>, cutoff: nat)
    requires Inv(w) && Retire(w.db, page, cutoff).Some? && cutoff % FIVE_MINUTE_BUCKET_MILLIS == 0
    requires forall t | t in page :: t in w.db.tombstones && t.timestamp < cutoff
    ensures Inv(w.(db := Retire(w.db, page, cutoff).value))
  {
    var db' := Retire(w.db, page, cutoff).value;
    forall b | Blocked(w.db, b) ensures Blocked(db', b) {
      RetireKeepsBlocked(w.db, page, cutoff, b);
    }
    assert db'.points == w.db.points;
    assert DeletedStaysDeleted(db', w.deleted) by {
      forall b | b in w.deleted ensures Sealed(db', b) { assert Sealed(w.db, b); }
    }
  }

  // ---------------------------------------------------------------------------
  // All runs
  // ---------------------------------------------------------------------------

  /** Every step keeps the invariant, whatever its clock readings. */
  lemma {:induction false} StepKeepsInv(w: World, step: Step)
    requires Inv(w)
    ensures Inv(Apply(w, step))
  {
    match step
    case PersistBatches(now, samples) =>
      PersistKeepsInv(w, now, samples);
    case RetentionChunk(resolution, cutoff, page, at) =>
      if RetentionPage(w.db.points, resolution, cutoff, page) {
        RetentionKeepsNewest(w.db.points, resolution, cutoff, page);
        DeleteKeepsInv(w, page, at);
      }
    case CapPrune(resolution, page, at) =>
      if CapPage(w.db.points, resolution, page) {
        CapKeepsNewest(w.db.points, resolution, page);
        DeleteKeepsInv(w, page, at);
      }
    case RetireTombstones(resolution, deletedBefore, clock, limit, page) =>
      var cutoff := RawAdmissionCutoff(clock);
      if RetirementPage(w.db, resolution, deletedBefore, cutoff, limit, page) && Retire(w.db, page, cutoff).Some? {
        RetireKeepsInv(w, page, cutoff);
      }
  }

  /** From a fresh database every run keeps the invariant. */
  lemma {:induction false} RunsKeepInv(steps: seq<Step>)
    ensures Inv(Run(Fresh(), steps))
  {
    if steps != [] {
      RunsKeepInv(steps[..|steps| - 1]);
      StepKeepsInv(Run(Fresh(), steps[..|steps| - 1]), steps[|steps| - 1]);
    }
  }

  lemma CountedIsStored(points: map<Key, Row>, admitted: map<Point, real>, deleted: set<Bucket>, b: Bucket,
      metric: Metric)
    requires NothingLost(points, admitted, deleted)
    requires 1 <= b.resolution <= 2 && Aligned(b) && CountIn(admitted, b, metric) > 0
    ensures KeyIn(b, metric) in points || b in deleted
  {
    var t := CountWitness(admitted, b.scope, metric, b.timestamp, b.timestamp + Width(b.resolution));
    SameBucket(b, t);
    assert Point(b.scope, t, metric) in admitted && BucketOf(b.scope, b.resolution, t) == b;
  }

  /**
   In every run a stored roll-up row holds exactly the count and the mean of all samples
   ever admitted to its scope, bucket and metric, with the last write per timestamp, even
   after the raw rows are gone; and a roll-up of admitted samples is missing only because
   its bucket was deleted.
   */
  lemma {:induction false} RollUpsMatchNeverPrunedHistory(steps: seq<Step>, b: Bucket, metric: Metric)
    requires 1 <= b.resolution <= 2 && Aligned(b)
    ensures var w := Run(Fresh(), steps);
      && (KeyIn(b, metric) in w.db.points ==>
            && w.db.points[KeyIn(b, metric)].samples == CountIn(w.admitted, b, metric) > 0
            && w.db.points[KeyIn(b, metric)].value ==
              TotalIn(w.admitted, b, metric) / CountIn(w.admitted, b, metric) as real)
      && (CountIn(w.admitted, b, metric) > 0 && b !in w.deleted ==> KeyIn(b, metric) in w.db.points)
  {
    hide Run, Count, Total, NothingLost, DeletedStaysDeleted, GoneIsBlocked, RawAgrees, LatestExact;
    RunsKeepInv(steps);
    var w := Run(Fresh(), steps);
    if KeyIn(b, metric) in w.db.points {
      assert RowExact(w.db.points, w.admitted, KeyIn(b, metric));
    }
    if CountIn(w.admitted, b, metric) > 0 {
      CountedIsStored(w.db.points, w.admitted, w.deleted, b, metric);
    }
  }

  lemma {:induction false} DeletedGrows(w: World, steps: seq<Step>, more: seq<Step>)
    ensures Run(w, steps).deleted <= Run(w, steps + more).deleted
  {
    if more == [] {
      assert steps + more == steps;
    } else {
      var n := |more| - 1;
      assert (steps + more)[..|steps + more| - 1] == steps + more[..n];
      DeletedGrows(w, steps, more[..n]);
    }
  }

  /** A bucket once deleted, at any resolution, never holds a row again. */
  lemma {:induction false} DeletedBucketNeverReappears(steps: seq<Step>, more: seq<Step>, b: Bucket, metric: Metric)
    requires b in Run(Fresh(), steps).deleted
    ensures KeyIn(b, metric) !in Run(Fresh(), steps + more).db.points
  {
    DeletedGrows(Fresh(), steps, more);
    RunsKeepInv(steps + more);
    var w := Run(Fresh(), steps + more);
    assert b in w.deleted && BucketFor(KeyIn(b, metric)) == b;
  }

  lemma CapStepSparesNewest(w: World, resolution: nat, page: set<Bucket>, at: nat, k: Key)
    requires LatestExact(w.db.points) && CapPage(w.db.points, resolution, page)
    requires k in w.db.points && IsNewest(w.db.points, k)
    ensures k in Apply(w, CapPrune(resolution, page, at)).db.points
  {
    hide EntombAll, CapPage;
    CapKeepsNewest(w.db.points, resolution, page);
  }

  /** In every run the cap spares the newest bucket of every scope and resolution. */
  lemma {:induction false} CapSparesNewest(steps: seq<Step>, resolution: nat, page: set<Bucket>, at: nat, k: Key)
    requires var w := Run(Fresh(), steps);
      CapPage(w.db.points, resolution, page) && k in w.db.points && IsNewest(w.db.points, k)
    ensures k in Apply(Run(Fresh(), steps), CapPrune(resolution, page, at)).db.points
  {
    hide Run, Apply, CapPage, LatestExact, IsNewest;
    RunsKeepInv(steps);
    CapStepSparesNewest(Run(Fresh(), steps), resolution, page, at, k);
  }
}
