/**
 The live projection as a fold over its events, without the secondary index: after every
 closing the open sessions and the newest closed ones remain.
 */
module Projection {
  import opened Wrappers
  import opened TerminalIndex

  type SessionId = nat // 16 hexadecimal digits, whose text order is the numeric order
  type Label = string

  datatype Identity = Identity(name: string, generation: U64)
  datatype Kind = Tcp | Udp | P2p
  datatype Route = RelayRoute | P2pDirect | P2pFallback
  datatype Traffic = Traffic(received: U64, sent: U64)
  datatype Metrics = Metrics(sampledAt: U64, values: seq<Option<U64>>)
  datatype Listing = Tunnels | Exports | Forwards

  datatype Client = Client(
    generation: U64, version: Label, online: bool, authenticatedAt: U64, disconnectedAt: Option<U64>,
    heartbeatAt: Option<U64>, telemetryAt: Option<U64>, telemetrySequence: Option<U64>, metrics: Option<Metrics>,
    traffic: Traffic, listings: map<Listing, seq<Label>>, reconnects: U64)

  datatype Details = Details(kind: Kind, route: Route, peer: Option<Label>, tunnel: Option<Label>,
      export_: Option<Label>)

  /** `generation` remembers which generation of the client opened the session. */
  datatype Session = Session(
    client: string, generation: U64, details: Details, traffic: Traffic,
    openedAt: U64, closedAt: Option<U64>, reason: Option<Label>)

  datatype State = State(
    generatedAt: U64, serverMetrics: Option<Metrics>, serverTraffic: Traffic,
    clients: map<string, Client>, sessions: map<SessionId, Session>)

  datatype Event =
    | Authenticated(who: Identity, version: Label, at: U64)
    | Disconnected(who: Identity, at: U64)
    | Heartbeat(who: Identity, at: U64)
    | Telemetry(who: Identity, sequence: U64, at: U64, metrics: Metrics)
    | Inventory(who: Identity, listing: Listing, names: seq<Label>)
    | Opened(who: Identity, id: SessionId, details: Details, at: U64)
    | ClosedBy(who: Identity, id: SessionId, kind: Kind, at: U64, reason: Option<Label>)
    | Delta(who: Identity, id_: Option<SessionId>, counters: Traffic)
    | ServerSample(metrics: Metrics)

  // ---------------------------------------------------------------------------
  // Steps
  // ---------------------------------------------------------------------------

  function Plus(a: Traffic, b: Traffic): Traffic {
    Traffic(Min(U64_MAX, a.received + b.received), Min(U64_MAX, a.sent + b.sent))
  }

  function Later(a: U64, b: U64): U64 {
    if a >= b then a else b
  }

  predicate IsCurrent(s: State, who: Identity) {
    who.name in s.clients && s.clients[who.name].generation == who.generation
  }

  predicate IsOnline(s: State, who: Identity) {
    IsCurrent(s, who) && s.clients[who.name].online
  }

  function Entries(sessions: map<SessionId, Session>): set<Entry> {
    set id | id in sessions && sessions[id].closedAt.Some? :: Entry(sessions[id].closedAt.value, id)
  }

  /** The open sessions and the closed ones whose entry is kept. */
  ghost function Retained(sessions: map<SessionId, Session>, kept: set<Entry>): map<SessionId, Session> {
    map id | id in sessions && (sessions[id].closedAt.Some? ==> Entry(sessions[id].closedAt.value, id) in kept) ::
      sessions[id]
  }

  /** Evicts the oldest closed sessions beyond the bound. */
  ghost function Bounded(sessions: map<SessionId, Session>): map<SessionId, Session> {
    Retained(sessions, Newest(Entries(sessions)))
  }

  function Terminated(x: Session, at: U64): Session {
    x.(closedAt := Some(at), reason := Some("generation_replaced"))
  }

  /** Closes every open session of a client whose generation was replaced. */
  function CloseAll(sessions: map<SessionId, Session>, name: string, at: U64): map<SessionId, Session> {
    map id | id in sessions ::
      if sessions[id].client == name && sessions[id].closedAt.None? then Terminated(sessions[id], at) else sessions[id]
  }

  function NewClient(who: Identity, version: Label, at: U64, traffic: Traffic, reconnects: U64): Client {
    Client(who.generation, version, true, at, None, None, None, None, None, traffic, map[], reconnects)
  }

  ghost function OnAuthenticated(s: State, who: Identity, version: Label, at: U64): State {
    if who.name in s.clients && s.clients[who.name].generation >= who.generation then s
    else if who.name in s.clients then
      var previous := s.clients[who.name];
      State(Later(s.generatedAt, at), s.serverMetrics, s.serverTraffic,
            s.clients[who.name := NewClient(who, version, at, previous.traffic, Min(U64_MAX, previous.reconnects + 1))],
            Bounded(CloseAll(s.sessions, who.name, at)))
    else
      s.(generatedAt := Later(s.generatedAt, at),
        clients := s.clients[who.name := NewClient(who, version, at, Traffic(0, 0), 0)])
  }

  function WithClient(s: State, name: string, c: Client, at: Option<U64>): State {
    s.(clients := s.clients[name := c],
       generatedAt := if at.Some? then Later(s.generatedAt, at.value) else s.generatedAt)
  }

  function NewSession(who: Identity, details: Details, at: U64): Session {
    Session(who.name, who.generation, details, Traffic(0, 0), at, None, None)
  }

  predicate Closable(s: State, who: Identity, id: SessionId, kind: Kind) {
    && IsCurrent(s, who) && id in s.sessions && s.sessions[id].client == who.name
    && s.sessions[id].details.kind == kind && s.sessions[id].closedAt.None?
  }

  function WithCounters(sessions: map<SessionId, Session>, who: Identity, id: Option<SessionId>,
      counters: Traffic): map<SessionId, Session> {
    if id.Some? && id.value in sessions && sessions[id.value].client == who.name && sessions[id.value].closedAt.None?
    then sessions[id.value := sessions[id.value].(traffic := Plus(sessions[id.value].traffic, counters))]
    else sessions
  }

  ghost function Apply(s: State, e: Event): State {
    match e
    case Authenticated(who, version, at) => OnAuthenticated(s, who, version, at)
    case Disconnected(who, at) =>
      if !IsCurrent(s, who) then s
      else WithClient(s, who.name, s.clients[who.name].(online := false, disconnectedAt := Some(at)), Some(at))
    case Heartbeat(who, at) =>
      if !IsOnline(s, who) then s else WithClient(s, who.name, s.clients[who.name].(heartbeatAt := Some(at)), Some(at))
    case Telemetry(who, sequence, at, metrics) =>
      if !IsOnline(s, who)
        || (s.clients[who.name].telemetrySequence.Some? && sequence <= s.clients[who.name].telemetrySequence.value)
      then s
      else
        WithClient(s, who.name,
          s.clients[who.name].(telemetrySequence := Some(sequence), telemetryAt := Some(at), metrics := Some(metrics)),
          Some(at))
    case Inventory(who, listing, names) =>
      if !IsOnline(s, who) then s
      else WithClient(s, who.name, s.clients[who.name].(listings := s.clients[who.name].listings[listing := names]),
        None)
    case Opened(who, id, details, at) =>
      if !IsOnline(s, who) then s
      else s.(sessions := s.sessions[id := NewSession(who, details, at)], generatedAt := Later(s.generatedAt, at))
    case ClosedBy(who, id, kind, at, reason) =>
      if !Closable(s, who, id, kind) then s
      else
        s.(sessions := Bounded(s.sessions[id := s.sessions[id].(closedAt := Some(at), reason := reason)]),
          generatedAt := Later(s.generatedAt, at))
    case Delta(who, id, counters) =>
      if !IsOnline(s, who) then s
      else
        var c := s.clients[who.name];
        State(s.generatedAt, s.serverMetrics, Plus(s.serverTraffic, counters),
              s.clients[who.name := c.(traffic := Plus(c.traffic, counters))],
              WithCounters(s.sessions, who, id, counters))
    case ServerSample(metrics) =>
      s.(generatedAt := Later(s.generatedAt, metrics.sampledAt), serverMetrics := Some(metrics))
  }

  function Empty(): State {
    State(0, None, Traffic(0, 0), map[], map[])
  }

  ghost function Project(events: seq<Event>): State {
    if events == [] then Empty() else Apply(Project(events[..|events| - 1]), events[|events| - 1])
  }

  // ---------------------------------------------------------------------------
  // Sums
  // ---------------------------------------------------------------------------

  ghost function Sum<K>(m: map<K, nat>): nat
    decreases |m|
  {
    if m == map[] then 0
    else
      var k :| k in m;
      assert (m - {k}).Keys == m.Keys - {k};
      m[k] + Sum(m - {k})
  }

  lemma {:induction false} SumRemove<K>(m: map<K, nat>, k: K)
    requires k in m
    ensures Sum(m) == m[k] + Sum(m - {k})
    decreases |m|
  {
    var j :| j in m && Sum(m) == m[j] + Sum(m - {j});
    if j != k {
      assert (m - {j}).Keys == m.Keys - {j} && (m - {k}).Keys == m.Keys - {k};
      SumRemove(m - {j}, k);
      SumRemove(m - {k}, j);
      assert m - {j} - {k} == m - {k} - {j};
    }
  }

  lemma SumUpdate<K>(m: map<K, nat>, k: K, v: nat)
    ensures Sum(m[k := v]) == Sum(m - {k}) + v
    ensures k in m ==> Sum(m) == Sum(m - {k}) + m[k]
    ensures k !in m ==> Sum(m - {k}) == Sum(m)
  {
    SumRemove(m[k := v], k);
    assert m[k := v] - {k} == m - {k};
    if k in m {
      SumRemove(m, k);
    } else {
      assert m - {k} == m;
    }
  }

  /** A smaller map has a smaller sum. */
  lemma {:induction false} SumMonotone<K>(small: map<K, nat>, large: map<K, nat>)
    requires forall k | k in small :: k in large && small[k] <= large[k]
    ensures Sum(small) <= Sum(large)
    decreases |small|
  {
    if small != map[] {
      var k :| k in small;
      SumRemove(small, k);
      SumRemove(large, k);
      assert (small - {k}).Keys == small.Keys - {k};
      SumMonotone(small - {k}, large - {k});
    }
  }

  // ---------------------------------------------------------------------------
  // The invariant
  // ---------------------------------------------------------------------------

  function Bytes(t: Traffic, sent: bool): U64 {
    if sent then t.sent else t.received
  }

  function ClientBytes(clients: map<string, Client>, sent: bool): map<string, nat> {
    map n | n in clients :: Bytes(clients[n].traffic, sent)
  }

  function SessionBytes(sessions: map<SessionId, Session>, name: string, sent: bool): map<SessionId, nat> {
    map id | id in sessions && sessions[id].client == name :: Bytes(sessions[id].traffic, sent)
  }

  ghost predicate ServerTotals(s: State) {
    forall sent: bool :: Bytes(s.serverTraffic, sent) == Min(U64_MAX, Sum(ClientBytes(s.clients, sent)))
  }

  ghost predicate Covers(clients: map<string, Client>, sessions: map<SessionId, Session>, name: string)
    requires name in clients
  {
    forall sent: bool :: Bytes(clients[name].traffic, sent) >= Min(U64_MAX, Sum(SessionBytes(sessions, name, sent)))
  }

  ghost predicate ClientTotals(s: State) {
    forall name | name in s.clients :: Covers(s.clients, s.sessions, name)
  }

  /** An open session belongs to its client's current generation. */
  ghost predicate OpenIsCurrent(s: State) {
    forall id | id in s.sessions ::
      && s.sessions[id].client in s.clients
      && (s.sessions[id].closedAt.None? ==> s.sessions[id].generation == s.clients[s.sessions[id].client].generation)
  }

  ghost predicate Inv(s: State) {
    ServerTotals(s) && ClientTotals(s) && OpenIsCurrent(s) && |Entries(s.sessions)| <= MAX_TERMINAL_SESSIONS
  }

  // ---------------------------------------------------------------------------
  // Preservation
  // ---------------------------------------------------------------------------

  /** Nothing about a client's sessions grows. */
  ghost predicate Shrinks(before: map<SessionId, Session>, after: map<SessionId, Session>) {
    forall id | id in after ::
      && (after[id].traffic == Traffic(0, 0)
          || (id in before && after[id].client == before[id].client && after[id].traffic == before[id].traffic))
  }

  lemma ShrinkingKeepsCover(clients: map<string, Client>, before: map<SessionId, Session>,
      after: map<SessionId, Session>, name: string)
    requires name in clients && Covers(clients, before, name) && Shrinks(before, after)
    ensures Covers(clients, after, name)
  {
    forall sent: bool ensures Bytes(clients[name].traffic, sent) >= Min(U64_MAX, Sum(SessionBytes(after, name, sent))) {
      SumShrinks(before, after, name, sent);
    }
  }

  lemma SumShrinks(before: map<SessionId, Session>, after: map<SessionId, Session>, name: string, sent: bool)
    requires Shrinks(before, after)
    ensures Sum(SessionBytes(after, name, sent)) <= Sum(SessionBytes(before, name, sent))
  {
    var old_, new_ := SessionBytes(before, name, sent), SessionBytes(after, name, sent);
    var positive := map id | id in new_ && new_[id] > 0 :: new_[id];
    SumOfPositive(new_, positive);
    SumMonotone(positive, old_);
  }

  lemma {:induction false} SumOfPositive<K>(m: map<K, nat>, positive: map<K, nat>)
    requires positive == map k | k in m && m[k] > 0 :: m[k]
    ensures Sum(m) == Sum(positive)
    decreases |m|
  {
    if m != map[] {
      var k :| k in m;
      SumRemove(m, k);
      assert (m - {k}).Keys == m.Keys - {k};
      var rest := map j | j in m - {k} && (m - {k})[j] > 0 :: (m - {k})[j];
      SumOfPositive(m - {k}, rest);
      if k in positive {
        SumRemove(positive, k);
        assert positive - {k} == rest;
      } else {
        assert positive == rest;
      }
    }
  }

  lemma SaturatingSum(total: nat, part: nat, rest: nat, server: nat, delta: nat)
    requires total == part + rest && server == Min(U64_MAX, total) && part <= U64_MAX
    ensures Min(U64_MAX, server + delta) == Min(U64_MAX, rest + Min(U64_MAX, part + delta))
  {
  }

  lemma DeltaKeepsServerTotals(s: State, who: Identity, counters: Traffic)
    requires ServerTotals(s) && who.name in s.clients
    ensures var c := s.clients[who.name];
      var clients' := s.clients[who.name := c.(traffic := Plus(c.traffic, counters))];
      forall sent: bool ::
        Bytes(Plus(s.serverTraffic, counters), sent) == Min(U64_MAX, Sum(ClientBytes(clients', sent)))
  {
    var c := s.clients[who.name];
    var c' := c.(traffic := Plus(c.traffic, counters));
    forall sent: bool
      ensures Bytes(Plus(s.serverTraffic, counters), sent) ==
        Min(U64_MAX, Sum(ClientBytes(s.clients[who.name := c'], sent)))
    {
      var m := ClientBytes(s.clients, sent);
      SumUpdate(m, who.name, Bytes(c'.traffic, sent));
      assert ClientBytes(s.clients[who.name := c'], sent) == m[who.name := Bytes(c'.traffic, sent)];
      SaturatingSum(Sum(m), m[who.name], Sum(m - {who.name}), Bytes(s.serverTraffic, sent), Bytes(counters, sent));
    }
  }

  lemma SameTrafficKeepsServerTotals(s: State, name: string, c: Client)
    requires ServerTotals(s) && c.traffic == (if name in s.clients then s.clients[name].traffic else Traffic(0, 0))
    ensures forall sent: bool ::
      Bytes(s.serverTraffic, sent) == Min(U64_MAX, Sum(ClientBytes(s.clients[name := c], sent)))
  {
    forall sent: bool ensures Sum(ClientBytes(s.clients[name := c], sent)) == Sum(ClientBytes(s.clients, sent)) {
      var m := ClientBytes(s.clients, sent);
      SumUpdate(m, name, Bytes(c.traffic, sent));
      assert ClientBytes(s.clients[name := c], sent) == m[name := Bytes(c.traffic, sent)];
    }
  }

  /** A delta adds at most itself to the sum over one client's sessions. */
  lemma DeltaGrowth(sessions: map<SessionId, Session>, who: Identity, id: Option<SessionId>, counters: Traffic,
      name: string, sent: bool)
    ensures Sum(SessionBytes(WithCounters(sessions, who, id, counters), name, sent))
            <= Sum(SessionBytes(sessions, name, sent)) + (if name == who.name then Bytes(counters, sent) else 0)
  {
    var sessions', m := WithCounters(sessions, who, id, counters), SessionBytes(sessions, name, sent);
    if sessions' == sessions || name != who.name {
      assert SessionBytes(sessions', name, sent) == m;
    } else {
      var v := Bytes(sessions'[id.value].traffic, sent);
      SumUpdate(m, id.value, v);
      assert SessionBytes(sessions', name, sent) == m[id.value := v];
    }
  }

  lemma DeltaKeepsCover(s: State, who: Identity, id: Option<SessionId>, counters: Traffic, name: string)
    requires ClientTotals(s) && who.name in s.clients && name in s.clients
    ensures var c := s.clients[who.name];
      var clients' := s.clients[who.name := c.(traffic := Plus(c.traffic, counters))];
      Covers(clients', WithCounters(s.sessions, who, id, counters), name)
  {
    hide Sum, SessionBytes, WithCounters;
    assert Covers(s.clients, s.sessions, name);
    forall sent: bool
      ensures Sum(SessionBytes(WithCounters(s.sessions, who, id, counters), name, sent))
              <= Sum(SessionBytes(s.sessions, name, sent)) + (if name == who.name then Bytes(counters, sent) else 0)
    {
      DeltaGrowth(s.sessions, who, id, counters, name, sent);
    }
  }

  lemma CountersKeepEntries(sessions: map<SessionId, Session>, who: Identity, id: Option<SessionId>, counters: Traffic)
    ensures Entries(WithCounters(sessions, who, id, counters)) == Entries(sessions)
  {
    var sessions' := WithCounters(sessions, who, id, counters);
    assert sessions'.Keys == sessions.Keys;
    assert forall k | k in sessions :: sessions'[k].closedAt == sessions[k].closedAt;
  }

  lemma DeltaKeepsInv(s: State, who: Identity, id: Option<SessionId>, counters: Traffic)
    requires Inv(s) && IsOnline(s, who)
    ensures Inv(Apply(s, Delta(who, id, counters)))
  {
    hide Sum, ClientBytes, SessionBytes, Plus;
    var s' := Apply(s, Delta(who, id, counters));
    DeltaKeepsServerTotals(s, who, counters);
    forall name | name in s'.clients ensures Covers(s'.clients, s'.sessions, name) {
      DeltaKeepsCover(s, who, id, counters, name);
    }
    CountersKeepEntries(s.sessions, who, id, counters);
  }

  /** Replacing one client by one with the same traffic, and shrinking the sessions. */
  lemma QuietKeepsTotals(s: State, name: string, c: Client, sessions': map<SessionId, Session>)
    requires ServerTotals(s) && ClientTotals(s) && Shrinks(s.sessions, sessions')
    requires c.traffic == (if name in s.clients then s.clients[name].traffic else Traffic(0, 0))
    requires name !in s.clients ==> forall id | id in sessions' :: sessions'[id].client != name
    ensures var s' := s.(clients := s.clients[name := c], sessions := sessions'); ServerTotals(s') && ClientTotals(s')
  {
    hide Sum, ClientBytes;
    var s' := s.(clients := s.clients[name := c], sessions := sessions');
    SameTrafficKeepsServerTotals(s, name, c);
    forall n | n in s'.clients ensures Covers(s'.clients, sessions', n) {
      if n in s.clients {
        ShrinkingKeepsCover(s.clients, s.sessions, sessions', n);
      } else {
        EmptySums(sessions', n);
      }
    }
  }

  lemma EmptySums(sessions: map<SessionId, Session>, name: string)
    requires forall id | id in sessions :: sessions[id].client != name
    ensures forall sent: bool :: Sum(SessionBytes(sessions, name, sent)) == 0
  {
    assert forall sent: bool :: SessionBytes(sessions, name, sent) == map[];
  }

  lemma BoundedShrinks(before: map<SessionId, Session>, sessions: map<SessionId, Session>)
    requires Shrinks(before, sessions)
    ensures Shrinks(before, Bounded(sessions)) && Bounded(sessions).Keys <= sessions.Keys
    ensures forall id | id in Bounded(sessions) :: Bounded(sessions)[id] == sessions[id]
  {
  }

  /** The closed sessions that remain are exactly the newest ones; open ones always remain. */
  lemma BoundedKeepsNewest(sessions: map<SessionId, Session>)
    ensures Entries(Bounded(sessions)) == Newest(Entries(sessions))
    ensures |Entries(Bounded(sessions))| <= MAX_TERMINAL_SESSIONS
    ensures forall id | id in sessions && sessions[id].closedAt.None? :: id in Bounded(sessions)
  {
    var kept := Newest(Entries(sessions));
    forall e | e in kept ensures e in Entries(Bounded(sessions)) {
      assert e in Entries(sessions);
      assert e.id in sessions && sessions[e.id].closedAt == Some(e.at);
      assert e.id in Bounded(sessions);
    }
  }

  lemma ClientStepKeepsInv(s: State, name: string, c: Client, at: Option<U64>)
    requires Inv(s) && name in s.clients && c.traffic == s.clients[name].traffic
      && c.generation == s.clients[name].generation
    ensures Inv(WithClient(s, name, c, at))
  {
    hide Entries, Sum;
    QuietKeepsTotals(s, name, c, s.sessions);
  }

  lemma ReplaceKeepsInv(s: State, who: Identity, version: Label, at: U64)
    requires Inv(s) && who.name in s.clients && s.clients[who.name].generation < who.generation
    ensures Inv(OnAuthenticated(s, who, version, at))
  {
    hide Entries, Sum, ClientBytes, SessionBytes, Newest, Bounded, ServerTotals, ClientTotals, Shrinks;
    var previous := s.clients[who.name];
    var closed := CloseAll(s.sessions, who.name, at);
    CloseAllShrinks(s.sessions, who.name, at);
    BoundedShrinks(s.sessions, closed);
    BoundedKeepsNewest(closed);
    var c := NewClient(who, version, at, previous.traffic, Min(U64_MAX, previous.reconnects + 1));
    QuietKeepsTotals(s, who.name, c, Bounded(closed));
    SameTotals(s.(clients := s.clients[who.name := c], sessions := Bounded(closed)),
      OnAuthenticated(s, who, version, at));
  }

  lemma CloseAllShrinks(sessions: map<SessionId, Session>, name: string, at: U64)
    ensures Shrinks(sessions, CloseAll(sessions, name, at))
  {
  }

  /** The totals depend on the traffic, the clients and the sessions only. */
  lemma SameTotals(a: State, b: State)
    requires ServerTotals(a) && ClientTotals(a)
    requires b.serverTraffic == a.serverTraffic && b.clients == a.clients && b.sessions == a.sessions
    ensures ServerTotals(b) && ClientTotals(b)
  {
  }

  lemma ArriveKeepsInv(s: State, who: Identity, version: Label, at: U64)
    requires Inv(s) && who.name !in s.clients
    ensures Inv(OnAuthenticated(s, who, version, at))
  {
    hide Entries, Sum, ClientBytes, SessionBytes, ServerTotals, ClientTotals;
    var c := NewClient(who, version, at, Traffic(0, 0), 0);
    QuietKeepsTotals(s, who.name, c, s.sessions);
    SameTotals(s.(clients := s.clients[who.name := c], sessions := s.sessions), OnAuthenticated(s, who, version, at));
  }

  lemma OpenKeepsInv(s: State, who: Identity, id: SessionId, details: Details, at: U64)
    requires Inv(s) && IsOnline(s, who)
    ensures Inv(Apply(s, Opened(who, id, details, at)))
  {
    hide Sum, ClientBytes, SessionBytes, ServerTotals, ClientTotals;
    var sessions' := s.sessions[id := NewSession(who, details, at)];
    QuietKeepsTotals(s, who.name, s.clients[who.name], sessions');
    assert s.clients[who.name := s.clients[who.name]] == s.clients;
    SameTotals(s.(clients := s.clients, sessions := sessions'), Apply(s, Opened(who, id, details, at)));
    SizeWithin(Entries(sessions'), Entries(s.sessions));
  }

  lemma CloseKeepsInv(s: State, who: Identity, id: SessionId, kind: Kind, at: U64, reason: Option<Label>)
    requires Inv(s) && Closable(s, who, id, kind)
    ensures Inv(Apply(s, ClosedBy(who, id, kind, at, reason)))
  {
    hide Entries, Sum, ClientBytes, SessionBytes, Newest, Bounded, ServerTotals, ClientTotals;
    var closed := s.sessions[id := s.sessions[id].(closedAt := Some(at), reason := reason)];
    BoundedShrinks(s.sessions, closed);
    BoundedKeepsNewest(closed);
    QuietKeepsTotals(s, who.name, s.clients[who.name], Bounded(closed));
    assert s.clients[who.name := s.clients[who.name]] == s.clients;
    SameTotals(s.(clients := s.clients, sessions := Bounded(closed)), Apply(s, ClosedBy(who, id, kind, at, reason)));
  }

  lemma SampleKeepsInv(s: State, metrics: Metrics)
    requires Inv(s)
    ensures Inv(Apply(s, ServerSample(metrics)))
  {
    hide Entries, ClientBytes, Sum;
  }

  lemma StepKeepsInv(s: State, e: Event)
    requires Inv(s)
    ensures Inv(Apply(s, e))
  {
    hide Inv, WithClient, OnAuthenticated, Bounded, WithCounters;
    match e
    case Authenticated(who, version, at) => AuthenticatedKeepsInv(s, who, version, at);
    case Disconnected(who, at) =>
      if IsCurrent(s, who) {
        ClientStepKeepsInv(s, who.name, s.clients[who.name].(online := false, disconnectedAt := Some(at)), Some(at));
      }
    case Heartbeat(who, at) =>
      if IsOnline(s, who) {
        ClientStepKeepsInv(s, who.name, s.clients[who.name].(heartbeatAt := Some(at)), Some(at));
      }
    case Telemetry(who, sequence, at, metrics) =>
      if IsOnline(s, who) {
        ClientStepKeepsInv(s, who.name,
          s.clients[who.name].(telemetrySequence := Some(sequence), telemetryAt := Some(at), metrics := Some(metrics)),
          Some(at));
      }
    case Inventory(who, listing, names) =>
      if IsOnline(s, who) {
        ClientStepKeepsInv(s, who.name,
          s.clients[who.name].(listings := s.clients[who.name].listings[listing := names]), None);
      }
    case Opened(who, id, details, at) =>
      if IsOnline(s, who) { OpenKeepsInv(s, who, id, details, at); }
    case ClosedBy(who, id, kind, at, reason) =>
      if Closable(s, who, id, kind) { CloseKeepsInv(s, who, id, kind, at, reason); }
    case Delta(who, id, counters) =>
      if IsOnline(s, who) { DeltaKeepsInv(s, who, id, counters); }
    case ServerSample(metrics) => SampleKeepsInv(s, metrics);
  }

  lemma AuthenticatedKeepsInv(s: State, who: Identity, version: Label, at: U64)
    requires Inv(s)
    ensures Inv(OnAuthenticated(s, who, version, at))
  {
    if who.name !in s.clients {
      ArriveKeepsInv(s, who, version, at);
    } else if s.clients[who.name].generation < who.generation {
      ReplaceKeepsInv(s, who, version, at);
    }
  }

  lemma EmptyInv()
    ensures Inv(Empty())
  {
    assert forall sent: bool :: ClientBytes(map[], sent) == map[];
    assert Entries(map[]) == {};
  }

  // ---------------------------------------------------------------------------
  // Every trace
  // ---------------------------------------------------------------------------

  lemma {:induction false} TracesKeepInv(events: seq<Event>)
    ensures Inv(Project(events))
  {
    if events == [] {
      EmptyInv();
    } else {
      hide Inv, Apply;
      TracesKeepInv(events[..|events| - 1]);
      StepKeepsInv(Project(events[..|events| - 1]), events[|events| - 1]);
    }
  }

  /**
   In every trace the server's totals are exactly the saturated sum of the clients'
   totals, and each client's total covers the saturated sum over its sessions.
   */
  lemma {:induction false} TotalsAgree(events: seq<Event>, name: string, sent: bool)
    ensures var s := Project(events);
      && Bytes(s.serverTraffic, sent) == Min(U64_MAX, Sum(ClientBytes(s.clients, sent)))
      && (name in s.clients ==>
        Bytes(s.clients[name].traffic, sent) >= Min(U64_MAX, Sum(SessionBytes(s.sessions, name, sent))))
  {
    hide Project, Sum, ClientBytes, SessionBytes;
    TracesKeepInv(events);
    var s := Project(events);
    assert name in s.clients ==> Covers(s.clients, s.sessions, name);
  }

  /** Every open session belongs to the current generation of its client. */
  lemma {:induction false} OpenSessionsAreCurrent(events: seq<Event>, id: SessionId)
    ensures var s := Project(events);
      id in s.sessions && s.sessions[id].closedAt.None? ==>
        s.sessions[id].client in s.clients && s.clients[s.sessions[id].client].generation == s.sessions[id].generation
  {
    hide Project, ServerTotals, ClientTotals, Entries;
    TracesKeepInv(events);
  }

  // ---------------------------------------------------------------------------
  // Stale generations
  // ---------------------------------------------------------------------------

  /** The newest generation a client has authenticated with, from the events alone. */
  function CurrentGeneration(events: seq<Event>, name: string): Option<U64> {
    if events == [] then None
    else
      var before, e := CurrentGeneration(events[..|events| - 1], name), events[|events| - 1];
      if e.Authenticated? && e.who.name == name && (before.None? || before.value < e.who.generation)
        then Some(e.who.generation)
      else before
  }

  /** An event of a generation that is not the current one, or an authentication that is not newer. */
  predicate IsStale(before: seq<Event>, e: Event) {
    !e.ServerSample? &&
    var current := CurrentGeneration(before, e.who.name);
    if e.Authenticated? then current.Some? && e.who.generation <= current.value else current != Some(e.who.generation)
  }

  function WithoutStale(events: seq<Event>): seq<Event> {
    if events == [] then []
    else
      var before, e := events[..|events| - 1], events[|events| - 1];
      if IsStale(before, e) then WithoutStale(before) else WithoutStale(before) + [e]
  }

  lemma StepKeepsGeneration(s: State, e: Event, name: string)
    ensures var s' := Apply(s, e);
      if e.Authenticated? && e.who.name == name && (name !in s.clients || s.clients[name].generation < e.who.generation)
      then name in s'.clients && s'.clients[name].generation == e.who.generation
      else
        && (name in s'.clients <==> name in s.clients)
        && (name in s.clients ==> s'.clients[name].generation == s.clients[name].generation)
  {
    hide Bounded, Plus, WithCounters;
  }

  /** The projection's generations are those of the events. */
  lemma {:induction false} GenerationsMatch(events: seq<Event>, name: string)
    ensures var s := Project(events);
      CurrentGeneration(events, name) == if name in s.clients then Some(s.clients[name].generation) else None
  {
    if events != [] {
      hide Apply;
      GenerationsMatch(events[..|events| - 1], name);
      StepKeepsGeneration(Project(events[..|events| - 1]), events[|events| - 1], name);
    }
  }

  lemma StaleChangesNothing(events: seq<Event>, e: Event)
    requires IsStale(events, e)
    ensures Apply(Project(events), e) == Project(events)
  {
    hide Project, CurrentGeneration, Bounded;
    GenerationsMatch(events, e.who.name);
  }

  /** Dropping every stale event from any trace gives the same projection. */
  lemma {:induction false} StaleEventsDoNotMatter(events: seq<Event>)
    ensures Project(WithoutStale(events)) == Project(events)
  {
    if events != [] {
      hide Apply, IsStale;
      var before, e := events[..|events| - 1], events[|events| - 1];
      StaleEventsDoNotMatter(before);
      if IsStale(before, e) {
        StaleChangesNothing(before, e);
      } else {
        var kept := WithoutStale(before);
        assert (kept + [e])[..|kept|] == kept;
      }
    }
  }
}
