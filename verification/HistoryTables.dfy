/**
 The metric tables of the SQLite history engine: raw samples, their one-minute and
 five-minute roll-ups, the deletion tombstones and the durable raw retirement floor.

 Each transaction is a function from tables to tables. Server and client metric tables
 have the same shape and the same statements, so both are one map keyed by scope.
 */
module HistoryTables {
  import opened Wrappers

  const RAW_RETENTION_MILLIS: nat := 60 * 60 * 1000
  const MINUTE_BUCKET_MILLIS: nat := 60 * 1000
  const FIVE_MINUTE_BUCKET_MILLIS: nat := 5 * 60 * 1000
  const DURABLE_RETIREMENT_FLOOR_TAG: nat := 0x4000_0000_0000_0000
  const MAINTENANCE_BUCKET_LIMIT: nat := 64
  const CAP_CANDIDATE_PAGE_LIMIT: nat := 64
  const CAP_BUCKET_LIMIT: nat := 19 // CAP_DELETE_LIMIT / 13 metrics

  type Metric = string

  datatype Scope = Server | Client(name: string)

  /** Resolution 0 is raw, 1 is one minute, 2 is five minutes. */
  datatype Key = Key(scope: Scope, resolution: nat, timestamp: nat, metric: Metric)

  datatype Row = Row(value: real, samples: nat, latest: bool)

  datatype Bucket = Bucket(scope: Scope, resolution: nat, timestamp: nat)

  datatype Tables = Tables(points: map<Key, Row>, tombstones: map<Bucket, nat>, evidence: nat)

  datatype Sample = Sample(scope: Scope, timestamp: U64, values: map<Metric, real>)

  /** One measurement of one metric, the unit of the never-pruned history. */
  datatype Point = Point(scope: Scope, timestamp: nat, metric: Metric)

  function Width(resolution: nat): (w: nat)
    ensures w > 0
  {
    if resolution == 2 then FIVE_MINUTE_BUCKET_MILLIS
    else if resolution == 1 then MINUTE_BUCKET_MILLIS
    else 1
  }

  lemma RoundsDownToMinute(t: nat)
    ensures var s := t / MINUTE_BUCKET_MILLIS * MINUTE_BUCKET_MILLIS;
      s % MINUTE_BUCKET_MILLIS == 0 && s <= t < s + MINUTE_BUCKET_MILLIS
  {
  }

  lemma RoundsDownToFiveMinutes(t: nat)
    ensures var s := t / FIVE_MINUTE_BUCKET_MILLIS * FIVE_MINUTE_BUCKET_MILLIS;
      s % FIVE_MINUTE_BUCKET_MILLIS == 0 && s <= t < s + FIVE_MINUTE_BUCKET_MILLIS
  {
  }

  /** Rounds down to the bucket width of a resolution. */
  function BucketStart(timestamp: nat, resolution: nat): (start: nat)
    ensures start % Width(resolution) == 0
    ensures start <= timestamp < start + Width(resolution)
  {
    if resolution == 2 then
      RoundsDownToFiveMinutes(timestamp);
      timestamp / FIVE_MINUTE_BUCKET_MILLIS * FIVE_MINUTE_BUCKET_MILLIS
    else if resolution == 1 then
      RoundsDownToMinute(timestamp);
      timestamp / MINUTE_BUCKET_MILLIS * MINUTE_BUCKET_MILLIS
    else timestamp
  }

  /** The bucket of `resolution` that a measurement at `timestamp` falls in. */
  function BucketOf(scope: Scope, resolution: nat, timestamp: nat): Bucket {
    Bucket(scope, resolution, BucketStart(timestamp, resolution))
  }

  predicate Aligned(b: Bucket) {
    b.timestamp % Width(b.resolution) == 0
  }

  function KeyIn(b: Bucket, metric: Metric): Key {
    Key(b.scope, b.resolution, b.timestamp, metric)
  }

  function BucketFor(k: Key): Bucket {
    Bucket(k.scope, k.resolution, k.timestamp)
  }

  // ---------------------------------------------------------------------------
  // Admission: the clock cutoff, the durable floor and the tombstones
  // ---------------------------------------------------------------------------

  /** The earliest raw timestamp a worker whose clock reads `clock` still admits. */
  function RawAdmissionCutoff(clock: U64): (cutoff: nat)
    ensures cutoff % FIVE_MINUTE_BUCKET_MILLIS == 0
    ensures clock <= RAW_RETENTION_MILLIS ==> cutoff == 0
    ensures clock > RAW_RETENTION_MILLIS ==>
      clock - RAW_RETENTION_MILLIS <= cutoff < clock - RAW_RETENTION_MILLIS + FIVE_MINUTE_BUCKET_MILLIS
  {
    var cutoff := SaturatingSub(clock, RAW_RETENTION_MILLIS);
    if cutoff == 0 then 0
    else
      Min(cutoff + (FIVE_MINUTE_BUCKET_MILLIS - 1), U64_MAX) / FIVE_MINUTE_BUCKET_MILLIS * FIVE_MINUTE_BUCKET_MILLIS
  }

  function EncodeFloor(cutoff: nat): Option<nat> {
    var encoded := DURABLE_RETIREMENT_FLOOR_TAG + cutoff;
    if encoded <= I64_MAX then Some(encoded) else None
  }

  function DecodeFloor(evidence: nat): nat {
    SaturatingSub(evidence, DURABLE_RETIREMENT_FLOOR_TAG)
  }

  /**
   Raising the stored evidence raises the decoded floor to exactly the maximum of both,
   whether the old evidence was tagged or a legacy wall-clock time.
   */
  lemma RaisedFloorIsMaximum(old_: nat, cutoff: nat)
    requires EncodeFloor(cutoff).Some?
    ensures DecodeFloor(Max(old_, EncodeFloor(cutoff).value)) == Max(DecodeFloor(old_), cutoff)
  {
  }

  /** No measurement at `timestamp` of this scope can be written any more. */
  predicate Blocked(db: Tables, b: Bucket) {
    b in db.tombstones || b.timestamp + Width(b.resolution) <= DecodeFloor(db.evidence)
  }

  predicate Admits(db: Tables, cutoff: nat, s: Sample) {
    && s.timestamp >= cutoff
    && BucketOf(s.scope, 1, s.timestamp) !in db.tombstones
    && BucketOf(s.scope, 2, s.timestamp) !in db.tombstones
  }

  /** The conversions that fail while the sample is looked up or inserted. */
  predicate InsertFaults(db: Tables, cutoff: nat, s: Sample) {
    && s.timestamp >= cutoff
    && (BucketStart(s.timestamp, 1) > I64_MAX || (Admits(db, cutoff, s) && s.timestamp > I64_MAX))
  }

  /** The conversion that fails when the bucket is aggregated. */
  predicate BucketFaults(b: Bucket) {
    b.timestamp + Width(b.resolution) > I64_MAX
  }

  /** The conversions to SQLite integers that abort the whole transaction. */
  predicate Faults(db: Tables, cutoff: nat, s: Sample) {
    || InsertFaults(db, cutoff, s)
    || (&& Admits(db, cutoff, s)
        && (BucketFaults(BucketOf(s.scope, 1, s.timestamp)) || BucketFaults(BucketOf(s.scope, 2, s.timestamp))))
  }

  function Admitted(db: Tables, cutoff: nat, samples: seq<Sample>): seq<Sample> {
    if samples == [] then []
    else
      var rest := Admitted(db, cutoff, samples[..|samples| - 1]);
      var s := samples[|samples| - 1];
      if Admits(db, cutoff, s) then rest + [s] else rest
  }

  // ---------------------------------------------------------------------------
  // Statements
  // ---------------------------------------------------------------------------

  function FlagOf(points: map<Key, Row>, k: Key): bool {
    k in points && points[k].latest
  }

  /** INSERT of one raw sample, overwriting an existing measurement at its timestamp. */
  function InsertSample(points: map<Key, Row>, s: Sample): map<Key, Row> {
    points + map m | m in s.values ::
      Key(s.scope, 0, s.timestamp, m) := Row(s.values[m], 1, FlagOf(points, Key(s.scope, 0, s.timestamp, m)))
  }

  function InsertAll(points: map<Key, Row>, samples: seq<Sample>): map<Key, Row> {
    if samples == [] then points
    else InsertSample(InsertAll(points, samples[..|samples| - 1]), samples[|samples| - 1])
  }

  /** SUM(sample_count) over the raw rows of one metric with lo <= timestamp < hi. */
  function RawCount(points: map<Key, Row>, scope: Scope, metric: Metric, lo: nat, hi: nat): nat {
    if hi <= lo then 0
    else
      var k := Key(scope, 0, hi - 1, metric);
      RawCount(points, scope, metric, lo, hi - 1) + if k in points then points[k].samples else 0
  }

  /** SUM(value * sample_count) over the same rows. */
  function RawTotal(points: map<Key, Row>, scope: Scope, metric: Metric, lo: nat, hi: nat): real {
    if hi <= lo then 0.0
    else
      var k := Key(scope, 0, hi - 1, metric);
      RawTotal(points, scope, metric, lo, hi - 1) +
      if k in points then points[k].value * points[k].samples as real else 0.0
  }

  predicate InBucket(b: Bucket, scope: Scope, timestamp: nat) {
    b.scope == scope && b.timestamp <= timestamp < b.timestamp + Width(b.resolution)
  }

  /** The metrics GROUP BY finds among the raw rows of a bucket. */
  function MetricsIn(points: map<Key, Row>, b: Bucket): set<Metric> {
    set k | k in points && k.resolution == 0 && InBucket(b, k.scope, k.timestamp) :: k.metric
  }

  function AggregateRow(points: map<Key, Row>, b: Bucket, m: Metric): Row {
    var count := RawCount(points, b.scope, m, b.timestamp, b.timestamp + Width(b.resolution));
    var total := RawTotal(points, b.scope, m, b.timestamp, b.timestamp + Width(b.resolution));
    Row(if count == 0 then 0.0 else total / count as real, count, FlagOf(points, KeyIn(b, m)))
  }

  /** The upsert of one bucket's aggregates. */
  function AggregateBucket(points: map<Key, Row>, b: Bucket): map<Key, Row> {
    points + map m | m in MetricsIn(points, b) :: KeyIn(b, m) := AggregateRow(points, b, m)
  }

  /** Every touched bucket aggregated from the same raw rows. */
  function RollUp(points: map<Key, Row>, touched: set<Bucket>): map<Key, Row> {
    points + map k | k in RegroupedKeys(points, touched) :: AggregateRow(points, BucketFor(k), k.metric)
  }

  function RegroupedKeys(points: map<Key, Row>, touched: set<Bucket>): set<Key> {
    set b, m | b in touched && m in MetricsIn(points, b) :: KeyIn(b, m)
  }

  predicate IsNewest(points: map<Key, Row>, k: Key) {
    forall j | j in points && j.scope == k.scope && j.resolution == k.resolution :: j.timestamp <= k.timestamp
  }

  /** A scope and resolution whose latest flags are maintained together. */
  datatype Series = Series(scope: Scope, resolution: nat)

  function SeriesOf(k: Key): Series {
    Series(k.scope, k.resolution)
  }

  function RefreshedRow(points: map<Key, Row>, k: Key): Row
    requires k in points
  {
    if points[k].latest || IsNewest(points, k) then points[k].(latest := IsNewest(points, k)) else points[k]
  }

  /** The latest-flag refresh of every listed series. */
  function Refresh(points: map<Key, Row>, touched: set<Series>): map<Key, Row> {
    map k | k in points :: if SeriesOf(k) in touched then RefreshedRow(points, k) else points[k]
  }

  function TouchedBuckets(samples: seq<Sample>): set<Bucket> {
    (set s | s in samples :: BucketOf(s.scope, 1, s.timestamp))
      + (set s | s in samples :: BucketOf(s.scope, 2, s.timestamp))
  }

  function TouchedSeries(samples: seq<Sample>): set<Series> {
    set s, r | s in samples && r in {0, 1, 2} :: Series(s.scope, r)
  }

  // ---------------------------------------------------------------------------
  // Transactions
  // ---------------------------------------------------------------------------

  function AdmissionCutoff(db: Tables, now: U64): nat {
    Max(RawAdmissionCutoff(now), DecodeFloor(db.evidence))
  }

  /** The points after a committed batch transaction. */
  function StoredPoints(points: map<Key, Row>, admitted: seq<Sample>): map<Key, Row> {
    Refresh(RollUp(InsertAll(points, admitted), TouchedBuckets(admitted)), TouchedSeries(admitted))
  }

  /** The batch transaction; None when it rolls back. */
  function Persist(db: Tables, now: U64, samples: seq<Sample>): Option<Tables> {
    var cutoff := AdmissionCutoff(db, now);
    if exists s | s in samples :: Faults(db, cutoff, s) then None
    else Some(db.(points := StoredPoints(db.points, Admitted(db, cutoff, samples))))
  }

  function BucketsAt(points: map<Key, Row>, resolution: nat): set<Bucket> {
    set k | k in points && k.resolution == resolution :: BucketFor(k)
  }

  /** The tombstones that deleting one bucket leaves. */
  function Tombstones(b: Bucket): set<Bucket> {
    if b.resolution == 0 then {BucketOf(b.scope, 1, b.timestamp), BucketOf(b.scope, 2, b.timestamp)} else {b}
  }

  function Entomb(tombstones: map<Bucket, nat>, b: Bucket, at: nat): map<Bucket, nat> {
    tombstones + map t | t in Tombstones(b) :: t := if t in tombstones then Max(tombstones[t], at) else at
  }

  function TombstonesOf(page: set<Bucket>): set<Bucket> {
    set b, t | b in page && t in Tombstones(b) :: t
  }

  function EntombAll(tombstones: map<Bucket, nat>, page: set<Bucket>, at: nat): map<Bucket, nat> {
    tombstones + map t | t in TombstonesOf(page) :: t := if t in tombstones then Max(tombstones[t], at) else at
  }

  /** Deletes every row of every bucket in the page and leaves the tombstones. */
  function DeletePage(db: Tables, page: set<Bucket>, at: nat): Tables {
    db.(points := map k | k in db.points && BucketFor(k) !in page :: db.points[k],
        tombstones := EntombAll(db.tombstones, page, at))
  }

  predicate NameBefore(a: string, b: string) {
    b != "" && (a == "" || a[0] < b[0] || (a[0] == b[0] && NameBefore(a[1..], b[1..])))
  }

  /** ORDER BY timestamp_ms, client_name; a server bucket sorts before client buckets. */
  predicate Before(a: Bucket, b: Bucket) {
    || a.timestamp < b.timestamp
    || (a.timestamp == b.timestamp && b.scope.Client? && (a.scope.Server? || NameBefore(a.scope.name, b.scope.name)))
  }

  /** `page` is the result of an ORDER BY ... LIMIT query over `candidates`. */
  predicate OldestFirst(candidates: set<Bucket>, page: set<Bucket>, limit: nat) {
    && page <= candidates
    && |page| <= limit
    && (|page| < limit ==> page == candidates)
    && forall p, c | p in page && c in candidates && Before(c, p) :: c in page
  }

  function Expired(points: map<Key, Row>, resolution: nat, cutoff: nat): set<Bucket> {
    set b | b in BucketsAt(points, resolution) && b.timestamp < cutoff
  }

  function OfServer(page: set<Bucket>): set<Bucket> {
    set b | b in page && b.scope.Server?
  }

  function OfClients(page: set<Bucket>): set<Bucket> {
    set b | b in page && b.scope.Client?
  }

  /** What one retention chunk selects: the oldest expired buckets of each table. */
  predicate RetentionPage(points: map<Key, Row>, resolution: nat, cutoff: nat, page: set<Bucket>) {
    && page == OfServer(page) + OfClients(page)
    && OldestFirst(OfServer(Expired(points, resolution, cutoff)), OfServer(page), MAINTENANCE_BUCKET_LIMIT)
    && OldestFirst(OfClients(Expired(points, resolution, cutoff)), OfClients(page), MAINTENANCE_BUCKET_LIMIT)
  }

  function NotLatest(points: map<Key, Row>, resolution: nat): set<Bucket> {
    set k | k in points && k.resolution == resolution && !points[k].latest :: BucketFor(k)
  }

  /** What one cap step selects: the oldest non-latest buckets, cut where the table changes. */
  predicate CapPage(points: map<Key, Row>, resolution: nat, page: set<Bucket>) {
    && page <= NotLatest(points, resolution)
    && (page == {} ==> NotLatest(points, resolution) == {})
    && |page| <= CAP_BUCKET_LIMIT
    && (page == OfServer(page) || page == OfClients(page))
    && forall p, c | p in page && c in NotLatest(points, resolution) && Before(c, p) :: c in page
  }

  /** ORDER BY deleted_ms, timestamp_ms, scope, client_name. */
  predicate DeletedBefore(tombstones: map<Bucket, nat>, a: Bucket, b: Bucket)
    requires a in tombstones && b in tombstones
  {
    tombstones[a] < tombstones[b] || (tombstones[a] == tombstones[b] && Before(a, b))
  }

  function ExpiredTombstones(tombstones: map<Bucket, nat>, resolution: nat, deletedBefore: nat, cutoff: nat)
    : set<Bucket>
  {
    set t | t in tombstones && t.resolution == resolution && tombstones[t] < deletedBefore && t.timestamp < cutoff
  }

  /** What one retirement step selects: the expired tombstones deleted first. */
  predicate RetirementPage(db: Tables, resolution: nat, deletedBefore: nat, cutoff: nat, limit: nat,
      page: set<Bucket>) {
    var expired := ExpiredTombstones(db.tombstones, resolution, deletedBefore, cutoff);
    && page <= expired && |page| <= limit && (|page| < limit ==> page == expired)
    && forall p, t | p in page && t in expired && DeletedBefore(db.tombstones, t, p) :: t in page
  }

  /** Removes expired tombstones and raises the durable floor in the same transaction. */
  function Retire(db: Tables, page: set<Bucket>, cutoff: nat): Option<Tables> {
    if page == {} then Some(db)
    else
      match EncodeFloor(cutoff)
      case None => None
      case Some(encoded) =>
        Some(db.(tombstones := db.tombstones - page, evidence := Max(db.evidence, encoded)))
  }
}
