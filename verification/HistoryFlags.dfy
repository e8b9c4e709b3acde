/**
 The newest-row flags of the lifecycle and session tables. Lifecycle rows are ranked by
 time and id within their client; closed sessions are ranked by closing time, opening
 time and id in one group, and open sessions have no rank.
 */
module HistoryFlags {
  import opened Wrappers
  import opened Ordering

  const RETENTION_DELETE_LIMIT: nat := 256
  const CAP_DELETE_LIMIT: nat := 256

  /** A lifecycle row's key is (0, id); a session row's key is (opened, session id). */
  datatype Key = Key(major: nat, minor: nat)

  datatype Row = Row(group: string, time: Option<nat>, flagged: bool)

  type Table = map<Key, Row>

  predicate Before(time: nat, k: Key, time': nat, k': Key) {
    time < time' || (time == time' && (k.major < k'.major || (k.major == k'.major && k.minor < k'.minor)))
  }

  /** `j` is a ranked row of the same group as `k` and older. */
  predicate Older(table: Table, j: Key, k: Key)
    requires j in table && k in table
  {
    && table[j].group == table[k].group && table[j].time.Some? && table[k].time.Some?
    && Before(table[j].time.value, j, table[k].time.value, k)
  }

  predicate IsNewest(table: Table, k: Key)
    requires k in table
  {
    table[k].time.Some? && forall j | j in table && j != k && table[j].group == table[k].group && table[j].time.Some? ::
      Older(table, j, k)
  }

  /** The flag marks exactly the newest row of each group. */
  ghost predicate Exact(table: Table) {
    forall k | k in table :: table[k].flagged <==> IsNewest(table, k)
  }

  // ---------------------------------------------------------------------------
  // Statements
  // ---------------------------------------------------------------------------

  datatype Write = Write(key: Key, group: string, time: Option<nat>)

  /** Inserts or overwrites a row, always unflagged; a row never changes its group. */
  function Put(table: Table, w: Write): Table {
    if w.key in table && table[w.key].group != w.group then table else table[w.key := Row(w.group, w.time, false)]
  }

  function PutAll(table: Table, writes: seq<Write>): Table {
    if writes == [] then table else Put(PutAll(table, writes[..|writes| - 1]), writes[|writes| - 1])
  }

  function Groups(writes: seq<Write>): set<string> {
    set w | w in writes :: w.group
  }

  /** Updates the rows that are flagged or newest, as the refresh statements do. */
  function Refresh(table: Table, groups: set<string>): Table {
    map k | k in table ::
      if table[k].group in groups && (table[k].flagged || IsNewest(table, k))
        then table[k].(flagged := IsNewest(table, k)) else table[k]
  }

  function TimeOf(table: Table, k: Key): nat {
    if k in table && table[k].time.Some? then table[k].time.value else 0
  }

  /** ORDER BY time, then by key, across all groups. */
  function ByTime(table: Table): (Key, Key) -> bool {
    (a, b) => Before(TimeOf(table, a), a, TimeOf(table, b), b)
  }

  function Expired(table: Table, cutoff: nat): set<Key> {
    set k | k in table && table[k].time.Some? && table[k].time.value < cutoff
  }

  function Unflagged(table: Table): set<Key> {
    set k | k in table && table[k].time.Some? && !table[k].flagged
  }

  /** What a retention statement deletes: the oldest expired rows. */
  ghost predicate RetentionPage(table: Table, cutoff: nat, page: set<Key>) {
    Leading(ByTime(table), Expired(table, cutoff), page, RETENTION_DELETE_LIMIT)
  }

  /** What a cap statement deletes: the oldest ranked rows without the flag. */
  ghost predicate CapPage(table: Table, page: set<Key>) {
    Leading(ByTime(table), Unflagged(table), page, CAP_DELETE_LIMIT)
  }

  datatype Step =
    | Persist(writes: seq<Write>)
    | Expire(cutoff: nat, page: set<Key>)
    | Prune(page: set<Key>)

  ghost function Apply(table: Table, step: Step): Table {
    match step
    case Persist(writes) => Refresh(PutAll(table, writes), Groups(writes))
    case Expire(cutoff, page) => if RetentionPage(table, cutoff, page) then table - page else table
    case Prune(page) => if CapPage(table, page) then table - page else table
  }

  ghost function Run(steps: seq<Step>): Table {
    if steps == [] then map[] else Apply(Run(steps[..|steps| - 1]), steps[|steps| - 1])
  }

  // ---------------------------------------------------------------------------
  // Preservation
  // ---------------------------------------------------------------------------

  /** Rows of groups that were not written are as they were. */
  lemma {:induction false} PutsElsewhere(table: Table, writes: seq<Write>, k: Key)
    ensures k in table ==> k in PutAll(table, writes) && PutAll(table, writes)[k].group == table[k].group
    ensures k in PutAll(table, writes) && PutAll(table, writes)[k].group !in Groups(writes) ==>
      k in table && PutAll(table, writes)[k] == table[k]
  {
    if writes != [] {
      var n := |writes| - 1;
      PutsElsewhere(table, writes[..n], k);
      assert writes[n] in writes;
      assert forall w | w in writes[..n] :: w in writes;
    }
  }

  lemma RefreshedNewest(table: Table, groups: set<string>, k: Key)
    requires k in table
    ensures IsNewest(Refresh(table, groups), k) == IsNewest(table, k)
  {
    var after := Refresh(table, groups);
    assert after.Keys == table.Keys;
    assert forall j | j in table :: after[j].group == table[j].group && after[j].time == table[j].time;
    assert forall j | j in table :: Older(after, j, k) <==> Older(table, j, k);
  }

  lemma PersistKeepsFlag(table: Table, writes: seq<Write>, k: Key)
    requires Exact(table) && k in PutAll(table, writes)
    ensures var after := Refresh(PutAll(table, writes), Groups(writes)); after[k].flagged <==> IsNewest(after, k)
  {
    hide PutAll;
    var put, groups := PutAll(table, writes), Groups(writes);
    RefreshedNewest(put, groups, k);
    if put[k].group !in groups {
      PutsElsewhere(table, writes, k);
      forall j: Key ensures j in put && put[j].group == put[k].group ==> j in table && table[j] == put[j] {
        PutsElsewhere(table, writes, j);
      }
      forall j | j in table && table[j].group == table[k].group ensures j in put && put[j].group == put[k].group {
        PutsElsewhere(table, writes, j);
      }
    }
  }

  /** A newer row above every ranked row, or the row itself. */
  lemma NewestAbove(table: Table, k: Key) returns (top: Key)
    requires k in table && table[k].time.Some?
    ensures top in table && IsNewest(table, top) && table[top].group == table[k].group
      && (top == k || Older(table, k, top))
    decreases set j | j in table && Older(table, k, j)
  {
    if IsNewest(table, k) {
      top := k;
    } else {
      var j :| j in table && j != k && table[j].group == table[k].group && table[j].time.Some? && !Older(table, j, k);
      assert Older(table, k, j);
      var above, aboveNext := (set x | x in table && Older(table, k, x)), (set x | x in table && Older(table, j, x));
      assert j in above && j !in aboveNext && aboveNext <= above;
      top := NewestAbove(table, j);
    }
  }

  lemma DeletionKeepsExact(table: Table, page: set<Key>)
    requires Exact(table)
    requires forall k | k in table && k !in page && table[k].time.Some? && !IsNewest(table, k) ::
      exists j | j in table && j !in page :: Older(table, k, j)
    ensures Exact(table - page)
  {
    var rest := table - page;
    forall k | k in rest ensures rest[k].flagged <==> IsNewest(rest, k) {
      if table[k].time.Some? && !IsNewest(table, k) {
        var j :| j in table && j !in page && Older(table, k, j);
        assert j in rest && !Older(rest, j, k);
      }
    }
  }

  lemma OlderIsByTime(table: Table, j: Key, k: Key)
    requires j in table && k in table && Older(table, j, k)
    ensures ByTime(table)(j, k) && TimeOf(table, j) == table[j].time.value && TimeOf(table, k) == table[k].time.value
  {
    assert Before(TimeOf(table, j), j, TimeOf(table, k), k);
  }

  lemma ExpireKeepsExact(table: Table, cutoff: nat, page: set<Key>)
    requires Exact(table) && RetentionPage(table, cutoff, page)
    ensures Exact(table - page)
  {
    forall k | k in table && k !in page && table[k].time.Some? && !IsNewest(table, k)
      ensures exists j | j in table && j !in page :: Older(table, k, j)
    {
      var top := NewestAbove(table, k);
      OlderIsByTime(table, k, top);
      assert top in page ==> k in Expired(table, cutoff);
    }
    DeletionKeepsExact(table, page);
  }

  lemma PruneKeepsExact(table: Table, page: set<Key>)
    requires Exact(table) && CapPage(table, page)
    ensures Exact(table - page)
  {
    forall k | k in table && k !in page && table[k].time.Some? && !IsNewest(table, k)
      ensures exists j | j in table && j !in page :: Older(table, k, j)
    {
      var top := NewestAbove(table, k);
      assert top !in page;
    }
    DeletionKeepsExact(table, page);
  }

  lemma StepKeepsExact(table: Table, step: Step)
    requires Exact(table)
    ensures Exact(Apply(table, step))
  {
    match step
    case Persist(writes) =>
      hide PutAll, Refresh, IsNewest;
      SameKeys(PutAll(table, writes), Groups(writes));
      forall k | k in PutAll(table, writes)
        ensures var after := Refresh(PutAll(table, writes), Groups(writes)); after[k].flagged <==> IsNewest(after, k)
      {
        PersistKeepsFlag(table, writes, k);
      }
    case Expire(cutoff, page) =>
      if RetentionPage(table, cutoff, page) { ExpireKeepsExact(table, cutoff, page); }
    case Prune(page) =>
      if CapPage(table, page) { PruneKeepsExact(table, page); }
  }

  lemma SameKeys(table: Table, groups: set<string>)
    ensures Refresh(table, groups).Keys == table.Keys
  {
  }

  /** After every committed step the flags mark exactly the newest rows. */
  lemma {:induction false} RunsKeepExact(steps: seq<Step>)
    ensures Exact(Run(steps))
  {
    if steps != [] {
      hide Exact, Apply;
      RunsKeepExact(steps[..|steps| - 1]);
      StepKeepsExact(Run(steps[..|steps| - 1]), steps[|steps| - 1]);
    }
  }

  /** The cap never removes the newest lifecycle row of a client or the newest closed session. */
  lemma {:induction false} CapSparesNewest(steps: seq<Step>, page: set<Key>, k: Key)
    requires k in Run(steps) && IsNewest(Run(steps), k)
    ensures k in Apply(Run(steps), Prune(page))
  {
    hide Run, IsNewest;
    RunsKeepExact(steps);
  }

  // ---------------------------------------------------------------------------
  // The pages the statements select
  // ---------------------------------------------------------------------------

  lemma TimeOrders(table: Table, keys: set<Key>)
    ensures Orders(ByTime(table), keys)
  {
  }

  /** The expired rows one retention statement deletes; `finished` when it did not fill its limit. */
  method SelectExpired(table: Table, cutoff: nat) returns (page: set<Key>, finished: bool)
    ensures RetentionPage(table, cutoff, page)
    ensures finished ==> forall k | k in table && k !in page :: table[k].time.None? || table[k].time.value >= cutoff
    ensures |page| <= RETENTION_DELETE_LIMIT
    ensures page == {} ==> finished
  {
    TimeOrders(table, Expired(table, cutoff));
    var rows := OrderedRows(ByTime(table), Expired(table, cutoff), RETENTION_DELETE_LIMIT);
    page, finished := RowSet(rows), |rows| < RETENTION_DELETE_LIMIT;
  }

  /** The unflagged rows one cap statement deletes; none only when there are none. */
  method SelectForCap(table: Table) returns (page: set<Key>)
    ensures CapPage(table, page)
    ensures page == {} ==> forall k | k in table :: table[k].time.None? || table[k].flagged
    ensures |page| <= CAP_DELETE_LIMIT
  {
    TimeOrders(table, Unflagged(table));
    var rows := OrderedRows(ByTime(table), Unflagged(table), CAP_DELETE_LIMIT);
    page := RowSet(rows);
    assert forall k | k in table && table[k].time.Some? && !table[k].flagged :: k in Unflagged(table);
  }

  // ---------------------------------------------------------------------------
  // What the statements store and spare
  // ---------------------------------------------------------------------------

  /** The group a key belongs to: that of its stored row, or of the first write that makes one. */
  function GroupOf(table: Table, writes: seq<Write>, k: Key): Option<string> {
    if k in table then Some(table[k].group)
    else if writes == [] then None
    else if writes[0].key == k then Some(writes[0].group)
    else GroupOf(table, writes[1..], k)
  }

  /** The last write to the key in the group it belongs to. */
  function LastWrite(writes: seq<Write>, k: Key, group: string): Option<Write> {
    if writes == [] then None
    else
      var w := writes[|writes| - 1];
      if w.key == k && w.group == group then Some(w) else LastWrite(writes[..|writes| - 1], k, group)
  }

  lemma {:induction false} GroupOfAppend(table: Table, writes: seq<Write>, w: Write, k: Key)
    ensures GroupOf(table, writes + [w], k) ==
      if GroupOf(table, writes, k).Some? then GroupOf(table, writes, k)
      else if w.key == k then Some(w.group) else None
  {
    if writes != [] {
      assert (writes + [w])[1..] == writes[1..] + [w];
      GroupOfAppend(table, writes[1..], w, k);
    } else {
      assert ([] + [w])[1..] == [];
    }
  }

  lemma {:induction false} PutAllAt(table: Table, writes: seq<Write>, k: Key)
    ensures var after, group := PutAll(table, writes), GroupOf(table, writes, k);
      && (k in after <==> group.Some?)
      && (k in after ==>
            && after[k].group == group.value
            && var w := LastWrite(writes, k, group.value);
               if w.Some? then after[k].time == w.value.time
               else k in table && after[k] == table[k])
  {
    if writes != [] {
      var n := |writes| - 1;
      PutAllAt(table, writes[..n], k);
      assert writes == writes[..n] + [writes[n]];
      GroupOfAppend(table, writes[..n], writes[n], k);
      NoWriteYet(table, writes[..n], k, writes[n].group);
    }
  }

  lemma {:induction false} NoWriteYet(table: Table, writes: seq<Write>, k: Key, group: string)
    ensures GroupOf(table, writes, k).None? ==> LastWrite(writes, k, group).None?
  {
    if writes != [] {
      var n := |writes| - 1;
      assert writes == writes[..n] + [writes[n]];
      GroupOfAppend(table, writes[..n], writes[n], k);
      NoWriteYet(table, writes[..n], k, group);
    }
  }

  /** A commit stores every key with the time of its last write in its own group and keeps the other rows. */
  lemma PersistStoresLastWrites(table: Table, writes: seq<Write>, k: Key)
    ensures var after, group := Apply(table, Persist(writes)), GroupOf(table, writes, k);
      && (k in after <==> group.Some?)
      && (k in after ==>
            && after[k].group == group.value
            && var w := LastWrite(writes, k, group.value);
               if w.Some? then after[k].time == w.value.time else k in table && after[k].time == table[k].time)
  {
    hide PutAll, GroupOf, LastWrite, IsNewest;
    PutAllAt(table, writes, k);
  }

  /** Retention spares rows that have not expired and sessions that are still open. */
  lemma RetentionSparesUnexpired(table: Table, cutoff: nat, page: set<Key>, k: Key)
    requires k in table && (table[k].time.None? || table[k].time.value >= cutoff)
    ensures var after := Apply(table, Expire(cutoff, page)); k in after && after[k] == table[k]
  {
    hide ByTime;
  }

  /** The cap spares open sessions and flagged rows. */
  lemma CapSparesOpenAndFlagged(table: Table, page: set<Key>, k: Key)
    requires k in table && (table[k].time.None? || table[k].flagged)
    ensures var after := Apply(table, Prune(page)); k in after && after[k] == table[k]
  {
    hide ByTime;
  }

  /** What a statement takes is older than what it leaves: by time, then by key, over all groups. */
  lemma DeletedAreOldest(table: Table, candidates: set<Key>, page: set<Key>, limit: nat, k: Key, j: Key)
    requires Leading(ByTime(table), candidates, page, limit) && k in page && j in candidates && j !in page
    requires k in table && j in table && table[k].time.Some? && table[j].time.Some?
    ensures table[k].time.value <= table[j].time.value
    ensures table[k].time == table[j].time ==>
      k.major < j.major || (k.major == j.major && k.minor < j.minor)
  {
    var before := ByTime(table);
    assert before(j, k) == Before(TimeOf(table, j), j, TimeOf(table, k), k);
    assert !before(j, k);
    hide ByTime;
    assert !Before(table[j].time.value, j, table[k].time.value, k);
    assert j != k;
  }
}
