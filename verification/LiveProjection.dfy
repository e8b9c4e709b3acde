/**
 The projection as the program runs it: updated in place, with a secondary index of closed
 sessions that decides evictions one insertion at a time. It refines the index-free fold.
 */
module LiveProjection {
  import opened Wrappers
  import opened TerminalIndex
  import opened Projection

  function IdsOf(entries: set<Entry>): set<SessionId> {
    set e | e in entries :: e.id
  }

  /** The index holds every closed session except those still to be recorded. */
  ghost predicate Indexes(terminal: set<Entry>, sessions: map<SessionId, Session>, unrecorded: set<SessionId>) {
    forall e :: e in terminal <==> e.id in sessions && sessions[e.id].closedAt == Some(e.at) && e.id !in unrecorded
  }

  lemma IndexesAll(terminal: set<Entry>, sessions: map<SessionId, Session>)
    ensures Indexes(terminal, sessions, {}) <==> terminal == Entries(sessions)
  {
  }

  /** What evicting the entries `gone` leaves. */
  function Without(sessions: map<SessionId, Session>, gone: set<Entry>): map<SessionId, Session> {
    sessions - IdsOf(gone)
  }

  lemma EvictOne(terminal: set<Entry>, sessions: map<SessionId, Session>, unrecorded: set<SessionId>, e: Entry)
    requires Indexes(terminal, sessions, unrecorded) && e in terminal
    ensures e.id in sessions && sessions[e.id].closedAt == Some(e.at) && e.id !in unrecorded
    ensures Indexes(terminal - {e}, sessions - {e.id}, unrecorded)
  {
  }

  lemma WithoutMore(sessions: map<SessionId, Session>, gone: set<Entry>, more: set<Entry>)
    ensures Without(Without(sessions, gone), more) == Without(sessions, gone + more)
  {
    assert IdsOf(gone + more) == IdsOf(gone) + IdsOf(more);
  }

  /** Evicting what is not kept leaves what is retained. */
  lemma WithoutIsRetained(sessions: map<SessionId, Session>, kept: set<Entry>)
    requires kept <= Entries(sessions)
    ensures Without(sessions, Entries(sessions) - kept) == Retained(sessions, kept)
  {
  }

  /** Recording the newly closed sessions in any order ends with the bounded sessions. */
  lemma RecordedAll(closed: map<SessionId, Session>, before: set<Entry>, added: set<Entry>, terminal: set<Entry>)
    requires Entries(closed) == before + added && AreNewest(terminal, before + added)
    ensures terminal == Newest(Entries(closed))
    ensures Without(closed, before + added - terminal) == Bounded(closed)
  {
    hide AreNewest, Entries, Newest;
    NewestIsUnique(terminal, Newest(Entries(closed)), Entries(closed));
    KeptIsSubset(terminal, Entries(closed));
    WithoutIsRetained(closed, terminal);
  }

  lemma KeptIsSubset(kept: set<Entry>, s: set<Entry>)
    requires AreNewest(kept, s)
    ensures kept <= s && |kept| <= MAX_TERMINAL_SESSIONS
  {
  }

  class Live {
    var generatedAt: U64
    var serverMetrics: Option<Metrics>
    var serverTraffic: Traffic
    var clients: map<string, Client>
    var sessions: map<SessionId, Session>
    var terminal: set<Entry>

    constructor ()
      ensures Valid() && View() == Empty()
    {
      generatedAt, serverMetrics, serverTraffic := 0, None, Traffic(0, 0);
      clients, sessions, terminal := map[], map[], {};
      new;
      assert Entries(map[]) == {};
    }

    function View(): State
      reads this
    {
      State(generatedAt, serverMetrics, serverTraffic, clients, sessions)
    }

    /** The index is exact and within its bound. */
    ghost predicate Valid()
      reads this
    {
      terminal == Entries(sessions) && |terminal| <= MAX_TERMINAL_SESSIONS
    }

    /**
     Records one closed session and evicts the oldest beyond the bound. The check that an
     evicted entry still names a closed session always succeeds.
     */
    method RecordTerminal(id: SessionId, at: U64, ghost unrecorded: set<SessionId>)
      requires id in sessions && sessions[id].closedAt == Some(at) && id !in unrecorded
      requires Indexes(terminal, sessions, unrecorded + {id}) && |terminal| <= MAX_TERMINAL_SESSIONS
      modifies this`sessions, this`terminal
      ensures Indexes(terminal, sessions, unrecorded)
      ensures Entry(at, id) !in old(terminal) && AreNewest(terminal, old(terminal) + {Entry(at, id)})
      ensures sessions == Without(old(sessions), old(terminal) + {Entry(at, id)} - terminal)
      ensures forall k | k in unrecorded && k in old(sessions) :: k in sessions && sessions[k] == old(sessions)[k]
    {
      ghost var whole := terminal + {Entry(at, id)};
      assert Entry(at, id) !in terminal;
      terminal := terminal + {Entry(at, id)};
      assert Without(sessions, {}) == sessions;
      assert whole - terminal == {};
      hide Without, Indexes;
      while |terminal| > MAX_TERMINAL_SESSIONS
        invariant Indexes(terminal, sessions, unrecorded) && terminal <= whole
        invariant |terminal| >= Min(|whole|, MAX_TERMINAL_SESSIONS)
        invariant forall a, b | a in terminal && b in whole - terminal :: Less(b, a)
        invariant sessions == Without(old(sessions), whole - terminal)
        invariant forall k | k in unrecorded && k in old(sessions) :: k in sessions && sessions[k] == old(sessions)[k]
        decreases |terminal|
      {
        LeastExists(terminal);
        var e :| IsLeast(e, terminal);
        DropLeast(terminal, whole, e);
        EvictOne(terminal, sessions, unrecorded, e);
        EvictedSoFar(old(sessions), sessions, whole, terminal, e);
        terminal := terminal - {e};
        if e.id in sessions && sessions[e.id].closedAt == Some(e.at) {
          sessions := sessions - {e.id};
        }
      }
      SizeWithin(terminal, whole);
    }

    /** Closes the open sessions of a client and lists them. */
    method CloseSessions(name: string, at: U64) returns (closed: seq<SessionId>)
      modifies this`sessions
      ensures sessions == CloseAll(old(sessions), name, at)
      ensures forall id :: id in closed <==>
        id in old(sessions) && old(sessions)[id].client == name && old(sessions)[id].closedAt.None?
      ensures Distinct(closed)
    {
      closed := [];
      var remaining := sessions.Keys;
      ghost var done: set<SessionId> := {};
      while remaining != {}
        invariant done !! remaining && done + remaining == old(sessions).Keys
        invariant sessions.Keys == old(sessions).Keys
        invariant forall id | id in remaining :: sessions[id] == old(sessions)[id]
        invariant forall id | id in done :: sessions[id] == CloseAll(old(sessions), name, at)[id]
        invariant forall id :: id in closed <==>
          id in done && old(sessions)[id].client == name && old(sessions)[id].closedAt.None?
        invariant forall i, j | 0 <= i < j < |closed| :: closed[i] != closed[j]
        decreases remaining
      {
        var id :| id in remaining;
        if sessions[id].client == name && sessions[id].closedAt.None? {
          sessions := sessions[id := Terminated(sessions[id], at)];
          closed := closed + [id];
        }
        remaining, done := remaining - {id}, done + {id};
      }
    }

    /** Records every listed session; the order does not matter to the result. */
    method RecordAll(closed: seq<SessionId>, at: U64, ghost before: set<Entry>)
      requires terminal == before && |before| <= MAX_TERMINAL_SESSIONS
      requires Indexes(before, sessions, Listed(closed)) && ClosedAt(sessions, closed, at) && Distinct(closed)
      modifies this`sessions, this`terminal
      ensures Valid() && sessions == Bounded(old(sessions))
    {
      hide Partway, Entries, Indexes, Bounded, AreNewest, ClosedAt, Distinct;
      PartwayStarts(sessions, before, closed, at);
      for i := 0 to |closed|
        invariant Partway(old(sessions), before, closed, i, at, sessions, terminal)
      {
        NextUp(old(sessions), before, closed, i, at, sessions, terminal);
        ghost var had, kept := sessions, terminal;
        RecordTerminal(closed[i], at, Listed(closed[i + 1..]));
        RecordStep(old(sessions), before, closed, i, at, had, kept, sessions, terminal);
      }
      PartwayEnds(old(sessions), before, closed, at, sessions, terminal);
    }

    method Authenticate(who: Identity, version: Label, at: U64)
      requires Valid()
      modifies this
      ensures Valid() && View() == OnAuthenticated(old(View()), who, version, at)
    {
      hide Entries, Bounded, CloseAll;
      if who.name in clients && clients[who.name].generation >= who.generation { return; }
      var traffic, reconnects := Traffic(0, 0), 0;
      if who.name in clients {
        var previous := clients[who.name];
        clients := clients - {who.name};
        ghost var before := terminal;
        IndexesAll(terminal, sessions);
        var closed := CloseSessions(who.name, at);
        ClosingKeepsIndex(before, old(sessions), who.name, at, closed);
        RecordAll(closed, at, before);
        traffic, reconnects := previous.traffic, Min(U64_MAX, previous.reconnects + 1);
      }
      assert old(clients) - {who.name} + map[who.name := NewClient(who, version, at, traffic, reconnects)]
          == old(clients)[who.name := NewClient(who, version, at, traffic, reconnects)];
      clients := clients[who.name := NewClient(who, version, at, traffic, reconnects)];
      generatedAt := Later(generatedAt, at);
    }

    method OpenSession(who: Identity, id: SessionId, details: Details, at: U64)
      requires Valid()
      modifies this
      ensures Valid() && View() == Projection.Apply(old(View()), Opened(who, id, details, at))
    {
      hide Bounded;
      if !IsOnline(View(), who) { return; }
      ReopenKeepsIndex(sessions, id, NewSession(who, details, at));
      if id in sessions && sessions[id].closedAt.Some? {
        terminal := terminal - {Entry(sessions[id].closedAt.value, id)};
      }
      sessions := sessions[id := NewSession(who, details, at)];
      generatedAt := Later(generatedAt, at);
    }

    method CloseSession(who: Identity, id: SessionId, kind: Kind, at: U64, reason: Option<Label>)
      requires Valid()
      modifies this
      ensures Valid() && View() == Projection.Apply(old(View()), ClosedBy(who, id, kind, at, reason))
    {
      hide Entries, Bounded;
      if !Closable(View(), who, id, kind) { return; }
      ghost var before := terminal;
      IndexesAll(terminal, sessions);
      sessions := sessions[id := sessions[id].(closedAt := Some(at), reason := reason)];
      OneListed(id);
      RecordAll([id], at, before);
      generatedAt := Later(generatedAt, at);
    }

    method AddCounters(who: Identity, id: Option<SessionId>, counters: Traffic)
      requires Valid()
      modifies this
      ensures Valid() && View() == Projection.Apply(old(View()), Delta(who, id, counters))
    {
      hide Bounded, Plus;
      if !IsOnline(View(), who) { return; }
      CountersKeepEntries(sessions, who, id, counters);
      hide Entries;
      var c := clients[who.name];
      clients := clients[who.name := c.(traffic := Plus(c.traffic, counters))];
      serverTraffic := Plus(serverTraffic, counters);
      if id.Some? && id.value in sessions && sessions[id.value].client == who.name
        && sessions[id.value].closedAt.None? {
        sessions := sessions[id.value := sessions[id.value].(traffic := Plus(sessions[id.value].traffic, counters))];
      }
    }

    method UpdateClient(name: string, c: Client, at: Option<U64>)
      requires Valid()
      modifies this`clients, this`generatedAt
      ensures Valid() && View() == WithClient(old(View()), name, c, at)
    {
      clients := clients[name := c];
      if at.Some? {
        generatedAt := Later(generatedAt, at.value);
      }
    }

    /** Every event leaves exactly the fold's state, with the index exact. */
    method Apply(e: Event)
      requires Valid()
      modifies this
      ensures Valid() && View() == Projection.Apply(old(View()), e)
    {
      hide Bounded, OnAuthenticated, Entries, Valid, Plus, WithCounters;
      match e {
        case Authenticated(who, version, at) => Authenticate(who, version, at);
        case Disconnected(who, at) =>
          if IsCurrent(View(), who) {
            UpdateClient(who.name, clients[who.name].(online := false, disconnectedAt := Some(at)), Some(at));
          }
        case Heartbeat(who, at) =>
          if IsOnline(View(), who) {
            UpdateClient(who.name, clients[who.name].(heartbeatAt := Some(at)), Some(at));
          }
        case Telemetry(who, sequence, at, metrics) =>
          if IsOnline(View(), who)
            && (clients[who.name].telemetrySequence.None? || sequence > clients[who.name].telemetrySequence.value) {
            UpdateClient(
              who.name,
              clients[who.name].(
                telemetrySequence := Some(sequence), telemetryAt := Some(at), metrics := Some(metrics)),
              Some(at));
          }
        case Inventory(who, listing, names) =>
          if IsOnline(View(), who) {
            UpdateClient(who.name, clients[who.name].(listings := clients[who.name].listings[listing := names]), None);
          }
        case Opened(who, id, details, at) => OpenSession(who, id, details, at);
        case ClosedBy(who, id, kind, at, reason) => CloseSession(who, id, kind, at, reason);
        case Delta(who, id, counters) => AddCounters(who, id, counters);
        case ServerSample(metrics) => Sample(metrics);
      }
    }

    method Sample(metrics: Metrics)
      requires Valid()
      modifies this`generatedAt, this`serverMetrics
      ensures Valid() && View() == Projection.Apply(old(View()), ServerSample(metrics))
    {
      generatedAt := Later(generatedAt, metrics.sampledAt);
      serverMetrics := Some(metrics);
    }

    /** A whole trace, event by event. */
    method Replay(events: seq<Event>)
      requires Valid() && View() == Empty()
      modifies this
      ensures Valid() && View() == Project(events)
    {
      hide Projection.Apply;
      for i := 0 to |events|
        invariant Valid() && View() == Project(events[..i])
      {
        assert events[..i + 1][..i] == events[..i];
        Apply(events[i]);
      }
      assert events[..|events|] == events;
    }
  }

  // ---------------------------------------------------------------------------
  // The index across the steps
  // ---------------------------------------------------------------------------

  lemma EvictedSoFar(start: map<SessionId, Session>, sessions: map<SessionId, Session>, whole: set<Entry>,
      terminal: set<Entry>, e: Entry)
    requires sessions == Without(start, whole - terminal) && e in terminal && terminal <= whole
    ensures sessions - {e.id} == Without(start, whole - (terminal - {e}))
  {
  }

  lemma NothingGone(sessions: map<SessionId, Session>)
    ensures Without(sessions, {}) == sessions
  {
    assert IdsOf({}) == {};
  }

  lemma ReopenKeepsIndex(sessions: map<SessionId, Session>, id: SessionId, x: Session)
    requires x.closedAt.None?
    ensures Entries(sessions[id := x]) ==
      if id in sessions && sessions[id].closedAt.Some? then Entries(sessions) - {Entry(sessions[id].closedAt.value, id)}
        else Entries(sessions)
    ensures |Entries(sessions[id := x])| <= |Entries(sessions)|
  {
    var after := Entries(sessions[id := x]);
    forall e | e in Entries(sessions) && e.id != id ensures e in after {
      assert e.id in sessions[id := x];
    }
    SizeWithin(after, Entries(sessions));
  }

  lemma ClosingKeepsIndex(before: set<Entry>, sessions: map<SessionId, Session>, name: string, at: U64,
      closed: seq<SessionId>)
    requires Indexes(before, sessions, {})
    requires forall id :: id in closed <==> id in sessions && sessions[id].client == name && sessions[id].closedAt.None?
    ensures Indexes(before, CloseAll(sessions, name, at), Listed(closed))
      && ClosedAt(CloseAll(sessions, name, at), closed, at)
  {
  }

  function Listed(ids: seq<SessionId>): set<SessionId> {
    set id | id in ids
  }

  function EntriesFor(ids: seq<SessionId>, at: U64): set<Entry> {
    set id | id in ids :: Entry(at, id)
  }

  ghost predicate Distinct(ids: seq<SessionId>) {
    forall i, j | 0 <= i < j < |ids| :: ids[i] != ids[j]
  }

  ghost predicate ClosedAt(sessions: map<SessionId, Session>, ids: seq<SessionId>, at: U64) {
    forall id | id in ids :: id in sessions && sessions[id].closedAt == Some(at)
  }

  lemma OneListed(id: SessionId)
    ensures Listed([id]) == {id} && Distinct([id])
  {
  }

  /** The first `i` closed sessions are recorded, the others untouched. */
  ghost predicate Partway(start: map<SessionId, Session>, before: set<Entry>, closed: seq<SessionId>, i: nat, at: U64,
                          sessions: map<SessionId, Session>, terminal: set<Entry>)
  {
    && i <= |closed| && Distinct(closed) && Indexes(before, start, Listed(closed)) && ClosedAt(start, closed, at)
    && AreNewest(terminal, before + EntriesFor(closed[..i], at))
    && sessions == Without(start, before + EntriesFor(closed[..i], at) - terminal)
    && Indexes(terminal, sessions, Listed(closed[i..])) && ClosedAt(sessions, closed[i..], at)
  }

  lemma PartwayStarts(start: map<SessionId, Session>, before: set<Entry>, closed: seq<SessionId>, at: U64)
    requires Distinct(closed) && Indexes(before, start, Listed(closed)) && ClosedAt(start, closed, at)
      && |before| <= MAX_TERMINAL_SESSIONS
    ensures Partway(start, before, closed, 0, at, start, before)
  {
    SmallIsKept(before);
    NothingGone(start);
    assert EntriesFor(closed[..0], at) == {} && before + {} == before && before - before == {} && closed[0..] == closed;
  }

  lemma NextUp(start: map<SessionId, Session>, before: set<Entry>, closed: seq<SessionId>, i: nat, at: U64,
               sessions: map<SessionId, Session>, terminal: set<Entry>)
    requires Partway(start, before, closed, i, at, sessions, terminal) && i < |closed|
    ensures var later := Listed(closed[i + 1..]); var id := closed[i];
      && id in sessions && sessions[id].closedAt == Some(at) && id !in later
      && Indexes(terminal, sessions, later + {id}) && |terminal| <= MAX_TERMINAL_SESSIONS
  {
  }

  lemma RecordStep(start: map<SessionId, Session>, before: set<Entry>, closed: seq<SessionId>, i: nat, at: U64,
                   had: map<SessionId, Session>, kept: set<Entry>, sessions: map<SessionId, Session>,
                   terminal: set<Entry>)
    requires Partway(start, before, closed, i, at, had, kept) && i < |closed|
    requires var x := Entry(at, closed[i]);
      && x !in kept && AreNewest(terminal, kept + {x}) && sessions == Without(had, kept + {x} - terminal)
      && Indexes(terminal, sessions, Listed(closed[i + 1..]))
      && forall k | k in Listed(closed[i + 1..]) && k in had :: k in sessions && sessions[k] == had[k]
    ensures Partway(start, before, closed, i + 1, at, sessions, terminal)
  {
    var x, added := Entry(at, closed[i]), EntriesFor(closed[..i], at);
    AddedNext(closed, i, at);
    NotYet(start, before, closed, i, at);
    hide Without, Indexes, EntriesFor, Listed, AreNewest, ClosedAt, Distinct;
    NewestComposes(kept, before + added, x, terminal);
    KeptIsSubset(kept, before + added);
    KeptIsSubset(terminal, kept + {x});
    WithoutMore(start, before + added - kept, kept + {x} - terminal);
    GoneSoFar(before, added, kept, x, terminal);
    assert ClosedAt(sessions, closed[i + 1..], at) by {
      StillClosed(had, sessions, closed, i, at);
    }
  }

  lemma GoneSoFar(before: set<Entry>, added: set<Entry>, kept: set<Entry>, x: Entry, terminal: set<Entry>)
    requires kept <= before + added && terminal <= kept + {x} && x !in before + added
    ensures before + added - kept + (kept + {x} - terminal) == before + (added + {x}) - terminal
    ensures before + added + {x} == before + (added + {x})
  {
  }

  lemma StillClosed(had: map<SessionId, Session>, sessions: map<SessionId, Session>, closed: seq<SessionId>, i: nat,
      at: U64)
    requires i < |closed| && ClosedAt(had, closed[i..], at)
    requires forall k | k in Listed(closed[i + 1..]) && k in had :: k in sessions && sessions[k] == had[k]
    ensures ClosedAt(sessions, closed[i + 1..], at)
  {
  }

  lemma AddedNext(closed: seq<SessionId>, i: nat, at: U64)
    requires i < |closed|
    ensures EntriesFor(closed[..i + 1], at) == EntriesFor(closed[..i], at) + {Entry(at, closed[i])}
  {
    assert closed[..i + 1] == closed[..i] + [closed[i]];
  }

  lemma NotYet(start: map<SessionId, Session>, before: set<Entry>, closed: seq<SessionId>, i: nat, at: U64)
    requires i < |closed| && Distinct(closed) && Indexes(before, start, Listed(closed))
    ensures Entry(at, closed[i]) !in before + EntriesFor(closed[..i], at)
  {
    assert closed[i] in closed;
    assert closed[i] !in closed[..i];
  }

  lemma PartwayEnds(start: map<SessionId, Session>, before: set<Entry>, closed: seq<SessionId>, at: U64,
                    sessions: map<SessionId, Session>, terminal: set<Entry>)
    requires Partway(start, before, closed, |closed|, at, sessions, terminal)
    ensures terminal == Entries(sessions) && |terminal| <= MAX_TERMINAL_SESSIONS && sessions == Bounded(start)
  {
    assert closed[..|closed|] == closed && closed[|closed|..] == [] && Listed([]) == {};
    AllRecorded(start, before, closed, at);
    hide Without, EntriesFor, Entries, Indexes, Bounded;
    RecordedAll(start, before, EntriesFor(closed, at), terminal);
    IndexesAll(terminal, sessions);
    KeptIsSubset(terminal, before + EntriesFor(closed, at));
  }

  lemma AllRecorded(start: map<SessionId, Session>, before: set<Entry>, closed: seq<SessionId>, at: U64)
    requires Indexes(before, start, Listed(closed)) && ClosedAt(start, closed, at)
    ensures Entries(start) == before + EntriesFor(closed, at)
  {
    IndexesAll(before + EntriesFor(closed, at), start);
  }
}
