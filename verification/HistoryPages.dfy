/**
 The selections of the maintenance steps: ORDER BY ... LIMIT over the stored buckets, the
 merge of the two candidate lists of a cap step and its cut where the table changes. Each
 selection meets the page predicate the transactions are proved for.
 */
module HistoryPages {
  import opened Wrappers
  import opened HistoryTables
  import opened Ordering

  // ---------------------------------------------------------------------------
  // The order is a strict total order
  // ---------------------------------------------------------------------------

  lemma {:induction false} NameTotal(a: string, b: string)
    ensures a == b || NameBefore(a, b) || NameBefore(b, a)
    ensures !(NameBefore(a, b) && NameBefore(b, a)) && !NameBefore(a, a)
  {
    if a == "" {
    } else if b == "" {
      NameTotal(a[1..], a[1..]);
    } else {
      NameTotal(a[1..], b[1..]);
      assert a == [a[0]] + a[1..] && b == [b[0]] + b[1..];
    }
  }

  lemma {:induction false} NameTransitive(a: string, b: string, c: string)
    requires NameBefore(a, b) && NameBefore(b, c)
    ensures NameBefore(a, c)
  {
    if a != "" && a[0] == b[0] == c[0] {
      NameTransitive(a[1..], b[1..], c[1..]);
    }
  }

  lemma BeforeTotal(a: Bucket, b: Bucket)
    ensures a.resolution == b.resolution ==> a == b || Before(a, b) || Before(b, a)
    ensures !(Before(a, b) && Before(b, a))
  {
    if a.scope.Client? && b.scope.Client? {
      NameTotal(a.scope.name, b.scope.name);
    }
  }

  lemma BeforeTransitive(a: Bucket, b: Bucket, c: Bucket)
    requires Before(a, b) && Before(b, c)
    ensures Before(a, c)
  {
    if a.scope.Client? && b.scope.Client? && c.scope.Client?
       && NameBefore(a.scope.name, b.scope.name) && NameBefore(b.scope.name, c.scope.name)
    {
      NameTransitive(a.scope.name, b.scope.name, c.scope.name);
    }
  }

  predicate OfOneResolution(buckets: set<Bucket>) {
    forall a, b | a in buckets && b in buckets :: a.resolution == b.resolution
  }

  /** The order of the bucket queries. */
  function ByAge(): (Bucket, Bucket) -> bool {
    (a, b) => Before(a, b)
  }

  lemma AgeOrders(buckets: set<Bucket>)
    requires OfOneResolution(buckets)
    ensures Orders(ByAge(), buckets)
  {
    hide Before;
    forall a, b | a in buckets && b in buckets
      ensures (a == b || Before(a, b) || Before(b, a)) && !(Before(a, b) && Before(b, a))
    {
      BeforeTotal(a, b);
    }
    forall a, b, c | a in buckets && b in buckets && c in buckets && Before(a, b) && Before(b, c) ensures Before(a, c) {
      BeforeTransitive(a, b, c);
    }
  }

  /** The order of the tombstone query: by deletion time, then like the buckets. */
  function ByDeletion(tombstones: map<Bucket, nat>): (Bucket, Bucket) -> bool {
    (a, b) => a in tombstones && b in tombstones && DeletedBefore(tombstones, a, b)
  }

  lemma DeletionOrders(tombstones: map<Bucket, nat>, buckets: set<Bucket>)
    requires OfOneResolution(buckets) && buckets <= tombstones.Keys
    ensures Orders(ByDeletion(tombstones), buckets)
  {
    hide Before;
    AgeOrders(buckets);
    assert forall a, b :: ByAge()(a, b) <==> Before(a, b);
  }

  // ---------------------------------------------------------------------------
  // Retention
  // ---------------------------------------------------------------------------

  lemma PartsOfPage(server: set<Bucket>, clients: set<Bucket>)
    requires server == OfServer(server) && clients == OfClients(clients)
    ensures OfServer(server + clients) == server && OfClients(server + clients) == clients
  {
  }

  lemma LeadingIsOldestFirst(candidates: set<Bucket>, page: set<Bucket>, limit: nat)
    requires Leading(ByAge(), candidates, page, limit)
    ensures OldestFirst(candidates, page, limit)
  {
    hide Before;
    assert forall a, b :: ByAge()(a, b) <==> Before(a, b);
  }

  /** The two queries of a retention chunk; `finished` when neither filled its page. */
  method SelectExpired(points: map<Key, Row>, resolution: nat, cutoff: nat) returns (page: set<Bucket>, finished: bool)
    ensures RetentionPage(points, resolution, cutoff, page)
    ensures finished ==> page == Expired(points, resolution, cutoff)
    ensures page == {} ==> finished
  {
    var expired := Expired(points, resolution, cutoff);
    AgeOrders(OfServer(expired));
    AgeOrders(OfClients(expired));
    var server := OrderedRows(ByAge(), OfServer(expired), MAINTENANCE_BUCKET_LIMIT);
    var clients := OrderedRows(ByAge(), OfClients(expired), MAINTENANCE_BUCKET_LIMIT);
    LeadingIsOldestFirst(OfServer(expired), RowSet(server), MAINTENANCE_BUCKET_LIMIT);
    LeadingIsOldestFirst(OfClients(expired), RowSet(clients), MAINTENANCE_BUCKET_LIMIT);
    hide OldestFirst, Leading, RowSet;
    assert RowSet(server) <= OfServer(expired) && RowSet(clients) <= OfClients(expired);
    PartsOfPage(RowSet(server), RowSet(clients));
    page := RowSet(server) + RowSet(clients);
    finished := |server| < MAINTENANCE_BUCKET_LIMIT && |clients| < MAINTENANCE_BUCKET_LIMIT;
  }

  // ---------------------------------------------------------------------------
  // Size cap
  // ---------------------------------------------------------------------------

  /** A table whose query cut `c` off has a full page of older rows, all before `p`. */
  lemma CutOffIsLate(table: set<Bucket>, page: set<Bucket>, rows: seq<Bucket>, i: nat, c: Bucket)
    requires Leading(ByAge(), table, page, CAP_CANDIDATE_PAGE_LIMIT) && page <= RowSet(rows)
    requires Ascending(ByAge(), rows) && OfOneResolution(RowSet(rows) + table) && i < |rows|
    requires c in table && c !in page && Before(c, rows[i])
    ensures i >= CAP_CANDIDATE_PAGE_LIMIT
  {
    hide Before, Ascending, Orders;
    AgeOrders(RowSet(rows));
    forall q | q in page ensures q in RowSet(rows[..i]) {
      BeforeTotal(q, c);
      assert ByAge()(c, q) <==> Before(c, q);
      BeforeTransitive(q, c, rows[i]);
      assert ByAge()(q, rows[i]);
      StandsBefore(ByAge(), rows, i, q);
    }
    SubsetSize(page, RowSet(rows[..i]));
    RowSetSize(rows[..i]);
  }

  /** The first rows of the merged pages are the oldest candidates of both tables. */
  lemma MergedIsOldest(candidates: set<Bucket>, server: set<Bucket>, clients: set<Bucket>, rows: seq<Bucket>, safe: nat,
      i: nat, c: Bucket)
    requires OfOneResolution(candidates) && server + clients <= candidates
    requires Leading(ByAge(), OfServer(candidates), server, CAP_CANDIDATE_PAGE_LIMIT)
    requires Leading(ByAge(), OfClients(candidates), clients, CAP_CANDIDATE_PAGE_LIMIT)
    requires RowSet(rows) == server + clients && Ascending(ByAge(), rows)
    requires i < safe <= |rows| && safe <= CAP_BUCKET_LIMIT && c in candidates && Before(c, rows[i])
    ensures c in rows[..safe]
  {
    hide Before, Ascending, Leading, Orders;
    if c in RowSet(rows) {
      AgeOrders(RowSet(rows));
      assert ByAge()(c, rows[i]);
      StandsBefore(ByAge(), rows, i, c);
    } else if c.scope.Server? {
      CutOffIsLate(OfServer(candidates), server, rows, i, c);
    } else {
      CutOffIsLate(OfClients(candidates), clients, rows, i, c);
    }
  }

  /** How many of the rows one step may delete: a bounded number, all of one table. */
  method SafeCount(rows: seq<Bucket>) returns (safe: nat)
    ensures safe <= |rows| && safe <= CAP_BUCKET_LIMIT && (rows != [] ==> safe > 0)
    ensures forall i | 0 <= i < safe :: rows[i].scope.Client? == rows[0].scope.Client?
    ensures safe < |rows| && safe < CAP_BUCKET_LIMIT ==> rows[safe].scope.Client? != rows[0].scope.Client?
  {
    var most := Min(|rows|, CAP_BUCKET_LIMIT);
    safe := 0;
    while safe < most && rows[safe].scope.Client? == rows[0].scope.Client?
      invariant safe <= most
      invariant forall i | 0 <= i < safe :: rows[i].scope.Client? == rows[0].scope.Client?
    {
      safe := safe + 1;
    }
  }

  /** The merged pages hold candidates only, and some whenever there are any. */
  lemma MergedAreCandidates(candidates: set<Bucket>, server: set<Bucket>, clients: set<Bucket>)
    requires Leading(ByAge(), OfServer(candidates), server, CAP_CANDIDATE_PAGE_LIMIT)
    requires Leading(ByAge(), OfClients(candidates), clients, CAP_CANDIDATE_PAGE_LIMIT)
    ensures server + clients <= candidates
    ensures server + clients == {} ==> candidates == {}
  {
    hide Before;
    if server + clients == {} {
      assert server == {} && clients == {};
      assert forall b | b in candidates :: b in OfServer(candidates) || b in OfClients(candidates);
    }
  }

  lemma OfOneTable(rows: seq<Bucket>)
    requires forall i | 0 <= i < |rows| :: rows[i].scope.Client? == rows[0].scope.Client?
    ensures RowSet(rows) == OfServer(RowSet(rows)) || RowSet(rows) == OfClients(RowSet(rows))
  {
    if rows != [] && rows[0].scope.Client? {
      assert forall b | b in RowSet(rows) :: b.scope.Client?;
    } else {
      assert forall b | b in RowSet(rows) :: b.scope.Server?;
    }
  }

  lemma CapPageFrom(points: map<Key, Row>, resolution: nat, server: set<Bucket>, clients: set<Bucket>,
      rows: seq<Bucket>, safe: nat)
    requires var candidates := NotLatest(points, resolution);
      && Leading(ByAge(), OfServer(candidates), server, CAP_CANDIDATE_PAGE_LIMIT)
      && Leading(ByAge(), OfClients(candidates), clients, CAP_CANDIDATE_PAGE_LIMIT)
    requires RowSet(rows) == server + clients && Ascending(ByAge(), rows)
    requires safe <= |rows| && safe <= CAP_BUCKET_LIMIT && (rows != [] ==> safe > 0)
    requires forall i | 0 <= i < safe :: rows[i].scope.Client? == rows[0].scope.Client?
    ensures CapPage(points, resolution, RowSet(rows[..safe]))
  {
    var candidates, page := NotLatest(points, resolution), RowSet(rows[..safe]);
    assert OfOneResolution(candidates) && page <= RowSet(rows);
    assert page == {} ==> RowSet(rows) == {} by {
      if rows != [] { assert rows[0] in page; }
    }
    OfOneTable(rows[..safe]);
    RowSetSize(rows[..safe]);
    MergedAreCandidates(candidates, server, clients);
    hide Leading, Ascending, NotLatest, Before, OfServer, OfClients;
    forall p, c | p in page && c in candidates && Before(c, p) ensures c in page {
      var i :| 0 <= i < safe && rows[i] == p;
      MergedIsOldest(candidates, server, clients, rows, safe, i, c);
    }
  }

  /** The candidate page of a cap step: both queries merged, bounded and cut at the table change. */
  method SelectForCap(points: map<Key, Row>, resolution: nat) returns (page: set<Bucket>)
    ensures CapPage(points, resolution, page)
  {
    var candidates := NotLatest(points, resolution);
    assert OfOneResolution(candidates);
    AgeOrders(OfServer(candidates));
    AgeOrders(OfClients(candidates));
    var server := OrderedRows(ByAge(), OfServer(candidates), CAP_CANDIDATE_PAGE_LIMIT);
    var clients := OrderedRows(ByAge(), OfClients(candidates), CAP_CANDIDATE_PAGE_LIMIT);
    var both := RowSet(server) + RowSet(clients);
    MergedAreCandidates(candidates, RowSet(server), RowSet(clients));
    AgeOrders(both);
    var rows := OrderedRows(ByAge(), both, |both|);
    AllOfThem(ByAge(), both, RowSet(rows));
    hide Leading, Ascending, CapPage, RowSet, NotLatest, OfServer, OfClients, Orders;
    var safe := SafeCount(rows);
    page := RowSet(rows[..safe]);
    CapPageFrom(points, resolution, RowSet(server), RowSet(clients), rows, safe);
  }

  // ---------------------------------------------------------------------------
  // Tombstones
  // ---------------------------------------------------------------------------

  /** The expired tombstones of one resolution, those deleted first. */
  method SelectTombstones(db: Tables, resolution: nat, deletedBefore: nat, cutoff: nat, limit: nat)
    returns (page: set<Bucket>)
    ensures RetirementPage(db, resolution, deletedBefore, cutoff, limit, page)
  {
    var expired := ExpiredTombstones(db.tombstones, resolution, deletedBefore, cutoff);
    DeletionOrders(db.tombstones, expired);
    var rows := OrderedRows(ByDeletion(db.tombstones), expired, limit);
    page := RowSet(rows);
    hide Before, Orders, RowSet;
    assert forall a, b | a in expired && b in expired ::
      ByDeletion(db.tombstones)(a, b) <==> DeletedBefore(db.tombstones, a, b);
  }
}
