/**
 What the live projection holds, computed from the events alone and one client, session or
 counter at a time: who is online, what traffic was counted, what a client last reported and
 how each session lived. The projection agrees with all of it after every trace.
 */
module ProjectionHistory {
  import opened Wrappers
  import opened TerminalIndex
  import opened Projection

  /** The event brings a client up with a newer generation than any before. */
  predicate Joins(before: seq<Event>, e: Event, name: string) {
    && e.Authenticated? && e.who.name == name
    && var current := CurrentGeneration(before, name); current.None? || current.value < e.who.generation
  }

  /** The client last joined with this generation and has not disconnected since. */
  predicate OnlineAt(events: seq<Event>, who: Identity) {
    events != [] &&
    var before, e := events[..|events| - 1], events[|events| - 1];
    if Joins(before, e, who.name) then e.who == who
    else !(e.Disconnected? && e.who == who) && OnlineAt(before, who)
  }

  // ---------------------------------------------------------------------------
  // Presence
  // ---------------------------------------------------------------------------

  lemma StepKeepsOnline(s: State, e: Event, who: Identity)
    ensures IsOnline(Apply(s, e), who) <==>
      if e.Authenticated? && e.who.name == who.name
         && (who.name !in s.clients || s.clients[who.name].generation < e.who.generation)
      then e.who == who
      else !(e.Disconnected? && e.who == who) && IsOnline(s, who)
  {
    hide Bounded, Plus, WithCounters;
  }

  /** A client counts as online exactly when the events say so. */
  lemma {:induction false} OnlineMatches(events: seq<Event>, who: Identity)
    ensures IsOnline(Project(events), who) <==> OnlineAt(events, who)
  {
    if events != [] {
      hide Apply, IsOnline, CurrentGeneration;
      var before, e := events[..|events| - 1], events[|events| - 1];
      OnlineMatches(before, who);
      GenerationsMatch(before, who.name);
      StepKeepsOnline(Project(before), e, who);
    } else {
      assert !IsOnline(Empty(), who);
    }
  }

  // ---------------------------------------------------------------------------
  // Traffic
  // ---------------------------------------------------------------------------

  /** What the event adds to the counters. */
  function Counted(before: seq<Event>, e: Event, sent: bool): nat {
    if e.Delta? && OnlineAt(before, e.who) then Bytes(e.counters, sent) else 0
  }

  /** The traffic of one client: all deltas of its online generations, never saturated. */
  function ClientSum(events: seq<Event>, name: string, sent: bool): nat {
    if events == [] then 0
    else
      var before, e := events[..|events| - 1], events[|events| - 1];
      ClientSum(before, name, sent) + if e.Delta? && e.who.name == name then Counted(before, e, sent) else 0
  }

  function ServerSum(events: seq<Event>, sent: bool): nat {
    if events == [] then 0
    else
      var before, e := events[..|events| - 1], events[|events| - 1];
      ServerSum(before, sent) + Counted(before, e, sent)
  }

  lemma StepCountsTraffic(s: State, e: Event, name: string, sent: bool)
    ensures var s' := Apply(s, e); var added := if e.Delta? && IsOnline(s, e.who) then Bytes(e.counters, sent) else 0;
      && Bytes(s'.serverTraffic, sent) == Min(U64_MAX, Bytes(s.serverTraffic, sent) + added)
      && (name in s.clients ==> name in s'.clients)
      && (name in s'.clients && name !in s.clients ==> Bytes(s'.clients[name].traffic, sent) == 0)
      && (name in s.clients ==>
            Bytes(s'.clients[name].traffic, sent) ==
              Min(U64_MAX, Bytes(s.clients[name].traffic, sent) + if e.Delta? && e.who.name == name then added else 0))
      && (added > 0 ==> e.who.name in s.clients)
  {
    hide Bounded, WithCounters;
  }

  /**
   A client's total is the saturated sum of every delta reported while its generation was
   online, across reconnects; the server's total is the saturated sum over all clients.
   */
  lemma {:induction false} TrafficMatches(events: seq<Event>, name: string, sent: bool)
    ensures var s := Project(events);
      && Bytes(s.serverTraffic, sent) == Min(U64_MAX, ServerSum(events, sent))
      && (name in s.clients ==> Bytes(s.clients[name].traffic, sent) == Min(U64_MAX, ClientSum(events, name, sent)))
      && (name !in s.clients ==> ClientSum(events, name, sent) == 0)
  {
    if events != [] {
      hide Apply, IsOnline, OnlineAt;
      var before, e := events[..|events| - 1], events[|events| - 1];
      TrafficMatches(before, name, sent);
      if e.Delta? {
        OnlineMatches(before, e.who);
      }
      StepCountsTraffic(Project(before), e, name, sent);
    }
  }

  // ---------------------------------------------------------------------------
  // What a client last reported
  // ---------------------------------------------------------------------------

  datatype Report = Report(sequence: U64, at: U64, metrics: Metrics)

  datatype Profile = Profile(
    version: Label, authenticatedAt: U64, disconnectedAt: Option<U64>, heartbeatAt: Option<U64>,
    report: Option<Report>, listings: map<Listing, seq<Label>>, reconnects: nat)

  /** One client's own events, folded: each join starts afresh but for the count of reconnects. */
  function ProfileOf(events: seq<Event>, name: string): Option<Profile> {
    if events == [] then None
    else
      var before, e := events[..|events| - 1], events[|events| - 1];
      var last := ProfileOf(before, name);
      if Joins(before, e, name) then
        Some(Profile(e.version, e.at, None, None, None, map[], if last.Some? then last.value.reconnects + 1 else 0))
      else if last.None? || e.ServerSample? || e.who.name != name then last
      else if CurrentGeneration(before, name) != Some(e.who.generation) then last
      else Some(Told(last.value, e, OnlineAt(before, e.who)))
  }

  /** What an event of the current generation tells about its client. */
  function Told(p: Profile, e: Event, online: bool): Profile {
    match e
    case Disconnected(_, at) => p.(disconnectedAt := Some(at))
    case Heartbeat(_, at) => if online then p.(heartbeatAt := Some(at)) else p
    case Telemetry(_, sequence, at, metrics) =>
      if online && (p.report.None? || p.report.value.sequence < sequence)
      then p.(report := Some(Report(sequence, at, metrics))) else p
    case Inventory(_, listing, names) => if online then p.(listings := p.listings[listing := names]) else p
    case _ => p
  }

  /** The projected client shows this profile. */
  predicate Shows(c: Client, p: Profile) {
    && c.version == p.version && c.authenticatedAt == p.authenticatedAt && c.disconnectedAt == p.disconnectedAt
    && c.heartbeatAt == p.heartbeatAt && c.listings == p.listings && c.reconnects == Min(U64_MAX, p.reconnects)
    && match p.report
       case None => c.telemetrySequence.None? && c.telemetryAt.None? && c.metrics.None?
       case Some(r) =>
         c.telemetrySequence == Some(r.sequence) && c.telemetryAt == Some(r.at) && c.metrics == Some(r.metrics)
  }

  lemma JoinShows(s: State, e: Event, last: Option<Profile>)
    requires e.Authenticated? && (e.who.name in s.clients <==> last.Some?)
    requires e.who.name in s.clients ==>
      s.clients[e.who.name].generation < e.who.generation && Shows(s.clients[e.who.name], last.value)
    ensures var s' := Apply(s, e);
      && e.who.name in s'.clients
      && Shows(s'.clients[e.who.name], Profile(e.version, e.at, None, None, None, map[],
                                               if last.Some? then last.value.reconnects + 1 else 0))
  {
    hide Bounded;
  }

  lemma ToldShows(s: State, e: Event, p: Profile)
    requires !e.ServerSample? && IsCurrent(s, e.who) && Shows(s.clients[e.who.name], p)
    ensures var s' := Apply(s, e);
      e.who.name in s'.clients && Shows(s'.clients[e.who.name], Told(p, e, IsOnline(s, e.who)))
  {
    hide Bounded, Plus, WithCounters;
  }

  lemma OthersKeepProfile(s: State, e: Event, name: string, p: Profile)
    requires e.ServerSample? || e.who.name != name || (!e.Authenticated? && !IsCurrent(s, e.who))
             || (e.Authenticated? && name in s.clients && s.clients[name].generation >= e.who.generation)
    ensures name in Apply(s, e).clients <==> name in s.clients
    ensures name in s.clients && Shows(s.clients[name], p) ==> Shows(Apply(s, e).clients[name], p)
  {
    hide Bounded, Plus, WithCounters;
  }

  /** After every trace each client shows exactly what its own events say. */
  lemma {:induction false} ProfilesMatch(events: seq<Event>, name: string)
    ensures var s := Project(events);
      && (name in s.clients <==> ProfileOf(events, name).Some?)
      && (name in s.clients ==> Shows(s.clients[name], ProfileOf(events, name).value))
  {
    if events != [] {
      hide Apply, OnlineAt, Shows, Told, CurrentGeneration;
      var before, e := events[..|events| - 1], events[|events| - 1];
      var s, last := Project(before), ProfileOf(before, name);
      ProfilesMatch(before, name);
      GenerationsMatch(before, name);
      if Joins(before, e, name) {
        JoinShows(s, e, last);
      } else if last.None? || e.ServerSample? || e.who.name != name
                || CurrentGeneration(before, name) != Some(e.who.generation)
      {
        if last.Some? || !e.Authenticated? || e.who.name != name {
          OthersKeepProfile(s, e, name, if last.Some? then last.value else Profile("", 0, None, None, None, map[], 0));
        }
      } else {
        OnlineMatches(before, e.who);
        ToldShows(s, e, last.value);
      }
    }
  }

  // ---------------------------------------------------------------------------
  // Sessions
  // ---------------------------------------------------------------------------

  /** A session's life; its counters are never saturated here. */
  datatype Life = Life(
    client: string, generation: U64, details: Details, openedAt: U64, closedAt: Option<U64>, reason: Option<Label>,
    received: nat, sent: nat)

  /** What one id stands for, from the events alone: the last accepted opening and what followed it. */
  function LifeOf(events: seq<Event>, id: SessionId): Option<Life> {
    if events == [] then None
    else
      var before, e := events[..|events| - 1], events[|events| - 1];
      var last := LifeOf(before, id);
      if e.Opened? && e.id == id && OnlineAt(before, e.who) then
        Some(Life(e.who.name, e.who.generation, e.details, e.at, None, None, 0, 0))
      else if last.None? || last.value.closedAt.Some? then last
      else Some(Lived(last.value, before, e, id))
  }

  /** What an event does to an open session. */
  function Lived(x: Life, before: seq<Event>, e: Event, id: SessionId): Life {
    if Joins(before, e, x.client) then x.(closedAt := Some(e.at), reason := Some("generation_replaced"))
    else if Ends(x, before, e, id) then x.(closedAt := Some(e.at), reason := e.reason)
    else if e.Delta? && e.id_ == Some(id) && e.who.name == x.client && OnlineAt(before, e.who) then
      x.(received := x.received + e.counters.received, sent := x.sent + e.counters.sent)
    else x
  }

  /** The current generation of its client closes the open session under its own kind. */
  predicate Ends(x: Life, before: seq<Event>, e: Event, id: SessionId) {
    && e.ClosedBy? && e.id == id && x.closedAt.None? && e.who.name == x.client && e.kind == x.details.kind
    && CurrentGeneration(before, x.client) == Some(e.who.generation)
  }

  function Projected(x: Life): Session {
    Session(x.client, x.generation, x.details, Traffic(Min(U64_MAX, x.received), Min(U64_MAX, x.sent)),
            x.openedAt, x.closedAt, x.reason)
  }

  /** The projection shows the session, unless it is closed and was evicted. */
  ghost predicate Agrees(s: State, id: SessionId, x: Option<Life>) {
    && (id in s.sessions ==> x.Some? && s.sessions[id] == Projected(x.value))
    && (x.Some? && x.value.closedAt.None? ==> id in s.sessions)
  }

  lemma BoundedKeepsOpen(sessions: map<SessionId, Session>, id: SessionId)
    ensures id in Bounded(sessions) ==> id in sessions && Bounded(sessions)[id] == sessions[id]
    ensures id in sessions && sessions[id].closedAt.None? ==> id in Bounded(sessions)
  {
    hide Newest;
  }

  lemma OpenAgrees(s: State, e: Event)
    requires e.Opened? && IsOnline(s, e.who)
    ensures Agrees(Apply(s, e), e.id, Some(Life(e.who.name, e.who.generation, e.details, e.at, None, None, 0, 0)))
  {
  }

  lemma ClosedAgrees(s: State, e: Event, id: SessionId, x: Option<Life>)
    requires Agrees(s, id, x) && (x.None? || x.value.closedAt.Some?)
    requires !(e.Opened? && e.id == id && IsOnline(s, e.who))
    ensures Agrees(Apply(s, e), id, x)
  {
    hide Plus;
    match e
    case Authenticated(who, _, at) => BoundedKeepsOpen(CloseAll(s.sessions, who.name, at), id);
    case ClosedBy(who, i, kind, at, reason) =>
      if Closable(s, who, i, kind) {
        BoundedKeepsOpen(s.sessions[i := s.sessions[i].(closedAt := Some(at), reason := reason)], id);
      }
    case _ =>
  }

  lemma JoinAgrees(s: State, e: Event, id: SessionId, x: Life)
    requires Agrees(s, id, Some(x)) && x.closedAt.None? && e.Authenticated? && e.who.name == x.client
    requires x.client in s.clients && s.clients[x.client].generation < e.who.generation
    ensures Agrees(Apply(s, e), id, Some(x.(closedAt := Some(e.at), reason := Some("generation_replaced"))))
  {
    BoundedKeepsOpen(CloseAll(s.sessions, e.who.name, e.at), id);
  }

  lemma EndAgrees(s: State, e: Event, id: SessionId, x: Life)
    requires Agrees(s, id, Some(x)) && x.closedAt.None? && e.ClosedBy? && e.id == id && IsCurrent(s, e.who)
    requires e.who.name == x.client && e.kind == x.details.kind
    ensures Agrees(Apply(s, e), id, Some(x.(closedAt := Some(e.at), reason := e.reason)))
  {
    BoundedKeepsOpen(s.sessions[id := s.sessions[id].(closedAt := Some(e.at), reason := e.reason)], id);
  }

  lemma DeltaAgrees(s: State, e: Event, id: SessionId, x: Life)
    requires Agrees(s, id, Some(x)) && x.closedAt.None? && e.Delta? && e.id_ == Some(id) && IsOnline(s, e.who)
    requires e.who.name == x.client
    ensures Agrees(Apply(s, e), id,
                   Some(x.(received := x.received + e.counters.received, sent := x.sent + e.counters.sent)))
  {
  }

  /** The event is about another session, another client, or not accepted. */
  ghost predicate Passes(s: State, e: Event, id: SessionId, x: Life) {
    match e
    case Authenticated(who, _, _) =>
      who.name != x.client || (who.name in s.clients && s.clients[who.name].generation >= who.generation)
    case Opened(who, i, _, _) => i != id || !IsOnline(s, who)
    case ClosedBy(who, i, kind, _, _) => i != id || !IsCurrent(s, who) || who.name != x.client || kind != x.details.kind
    case Delta(who, i, _) => i != Some(id) || !IsOnline(s, who) || who.name != x.client
    case _ => true
  }

  lemma PassingAgrees(s: State, e: Event, id: SessionId, x: Life)
    requires Agrees(s, id, Some(x)) && x.closedAt.None? && Passes(s, e, id, x)
    ensures Agrees(Apply(s, e), id, Some(x))
  {
    hide Plus;
    match e
    case Authenticated(who, _, at) => BoundedKeepsOpen(CloseAll(s.sessions, who.name, at), id);
    case ClosedBy(who, i, kind, at, reason) =>
      if Closable(s, who, i, kind) {
        BoundedKeepsOpen(s.sessions[i := s.sessions[i].(closedAt := Some(at), reason := reason)], id);
      }
    case _ =>
  }

  /** The client of a session has joined before. */
  lemma {:induction false} LivesHaveClients(events: seq<Event>, id: SessionId)
    ensures LifeOf(events, id).Some? ==> CurrentGeneration(events, LifeOf(events, id).value.client).Some?
  {
    if events != [] {
      hide Joins, Ends;
      var before, e := events[..|events| - 1], events[|events| - 1];
      LivesHaveClients(before, id);
      if e.Opened? && OnlineAt(before, e.who) {
        OnlineMatches(before, e.who);
        GenerationsMatch(before, e.who.name);
      }
    }
  }

  /**
   After every trace a session that is shown is exactly as its own events say, with its
   counters saturated, and every open one is shown; only closed ones may have been evicted.
   */
  lemma {:induction false} SessionsMatch(events: seq<Event>, id: SessionId)
    ensures var s, x := Project(events), LifeOf(events, id);
      && (id in s.sessions ==> x.Some? && s.sessions[id] == Projected(x.value))
      && (x.Some? && x.value.closedAt.None? ==> id in s.sessions)
  {
    if events != [] {
      hide Apply, OnlineAt, CurrentGeneration, IsOnline, Agrees;
      var before, e := events[..|events| - 1], events[|events| - 1];
      var s, last := Project(before), LifeOf(before, id);
      SessionsMatch(before, id);
      assert Agrees(s, id, last) by { AgreesIs(s, id, last); }
      LifeStepAgrees(before, e, id);
      AgreesIs(Project(events), id, LifeOf(events, id));
    }
  }

  lemma AgreesIs(s: State, id: SessionId, x: Option<Life>)
    ensures Agrees(s, id, x) <==>
      && (id in s.sessions ==> x.Some? && s.sessions[id] == Projected(x.value))
      && (x.Some? && x.value.closedAt.None? ==> id in s.sessions)
  {
  }

  lemma LifeStepAgrees(before: seq<Event>, e: Event, id: SessionId)
    requires Agrees(Project(before), id, LifeOf(before, id))
    ensures Agrees(Apply(Project(before), e), id, LifeOf(before + [e], id))
  {
    hide Apply, OnlineAt, CurrentGeneration, Agrees, Project;
    var s, last := Project(before), LifeOf(before, id);
    assert (before + [e])[..|before|] == before;
    if !e.ServerSample? {
      OnlineMatches(before, e.who);
      GenerationsMatch(before, e.who.name);
    }
    if e.Opened? && e.id == id && OnlineAt(before, e.who) {
      OpenAgrees(s, e);
    } else if last.None? || last.value.closedAt.Some? {
      ClosedAgrees(s, e, id, last);
    } else {
      LivesHaveClients(before, id);
      GenerationsMatch(before, last.value.client);
      if Joins(before, e, last.value.client) {
        JoinAgrees(s, e, id, last.value);
      } else if Ends(last.value, before, e, id) {
        EndAgrees(s, e, id, last.value);
      } else if e.Delta? && e.id_ == Some(id) && e.who.name == last.value.client && OnlineAt(before, e.who) {
        DeltaAgrees(s, e, id, last.value);
      } else {
        PassingAgrees(s, e, id, last.value);
      }
    }
  }

  // ---------------------------------------------------------------------------
  // The snapshot's time and the server's metrics
  // ---------------------------------------------------------------------------

  /** The time an accepted event carries; inventories and deltas carry none. */
  function AcceptedAt(before: seq<Event>, e: Event): Option<U64> {
    match e
    case Authenticated(who, _, at) => if Joins(before, e, who.name) then Some(at) else None
    case Disconnected(who, at) =>
      if CurrentGeneration(before, who.name) == Some(who.generation) then Some(at) else None
    case Heartbeat(who, at) => if OnlineAt(before, who) then Some(at) else None
    case Telemetry(who, sequence, at, _) =>
      var p := ProfileOf(before, who.name);
      if OnlineAt(before, who) && p.Some? && (p.value.report.None? || p.value.report.value.sequence < sequence)
      then Some(at) else None
    case Opened(who, _, _, at) => if OnlineAt(before, who) then Some(at) else None
    case ClosedBy(who, id, _, at, _) =>
      var x := LifeOf(before, id); if x.Some? && Ends(x.value, before, e, id) then Some(at) else None
    case ServerSample(metrics) => Some(metrics.sampledAt)
    case _ => None
  }

  function LatestTime(events: seq<Event>): U64 {
    if events == [] then 0
    else
      var before, e := events[..|events| - 1], events[|events| - 1];
      var at := AcceptedAt(before, e);
      if at.Some? && at.value > LatestTime(before) then at.value else LatestTime(before)
  }

  function LatestSample(events: seq<Event>): Option<Metrics> {
    if events == [] then None
    else if events[|events| - 1].ServerSample? then Some(events[|events| - 1].metrics)
    else LatestSample(events[..|events| - 1])
  }

  lemma StepAdvancesTime(before: seq<Event>, e: Event)
    ensures var s := Project(before); var at := AcceptedAt(before, e);
      && Apply(s, e).generatedAt == (if at.Some? && at.value > s.generatedAt then at.value else s.generatedAt)
      && Apply(s, e).serverMetrics == if e.ServerSample? then Some(e.metrics) else s.serverMetrics
  {
    hide Project, OnlineAt, CurrentGeneration, Bounded, Plus, ProfileOf, LifeOf, WithCounters, CloseAll;
    if !e.ServerSample? {
      OnlineMatches(before, e.who);
      GenerationsMatch(before, e.who.name);
      ProfilesMatch(before, e.who.name);
      if e.ClosedBy? {
        SessionsMatch(before, e.id);
      }
    }
  }

  /** The snapshot's time is the latest time of any accepted event, and the server's metrics are the last sample. */
  lemma {:induction false} TimesMatch(events: seq<Event>)
    ensures Project(events).generatedAt == LatestTime(events)
    ensures Project(events).serverMetrics == LatestSample(events)
  {
    if events != [] {
      hide Apply, AcceptedAt;
      TimesMatch(events[..|events| - 1]);
      StepAdvancesTime(events[..|events| - 1], events[|events| - 1]);
    }
  }
}
