/**
 The race between path attempts: direct attempts start at once, relay attempts after a
 grace period, the first authenticated path wins and everything else is cancelled.
 */
module PathRace {
  import opened Wrappers
  import opened PathRecord

  /** What the scheduler hands the loop in one pass. */
  datatype Happening =
    | CallerCancelled
    | OperationCancelled
    | LifetimeCancelled
    | GraceElapsed
    | AttemptEnded(id: nat, path: Option<PathKind>) // None: error, timeout or panic

  predicate IsCancellation(h: Happening) {
    h.CallerCancelled? || h.OperationCancelled? || h.LifetimeCancelled?
  }

  datatype Moment = Moment(now: nat, happening: Happening)

  datatype Outcome = Won(id: nat, kind: PathKind) | NoViablePath | Cancelled | StillRacing

  datatype Running = Running(id: nat, kind: PathKind)

  /** What the race has done: which attempts it started, saw fail and cancelled, by id. */
  datatype Trace = Trace(
    kinds: seq<PathKind>, relayAt: Option<nat>, failed: set<nat>, cancelled: set<nat>,
    running: seq<Running>, directActive: nat, relayActive: nat)

  // ---------------------------------------------------------------------------
  // Groups
  // ---------------------------------------------------------------------------

  function Only(attempts: seq<PathKind>, kind: PathKind): (s: seq<PathKind>)
    ensures forall k | k in s :: k == kind
  {
    if attempts == [] then []
    else (if attempts[0] == kind then [attempts[0]] else []) + Only(attempts[1..], kind)
  }

  function DirectGroups(attempts: seq<PathKind>): seq<PathKind> {
    Only(attempts, QuicV6) + Only(attempts, QuicV4) + Only(attempts, NativeTcp)
  }

  function RelayGroup(attempts: seq<PathKind>): seq<PathKind> {
    Only(attempts, RelayPath)
  }

  lemma {:induction false} OnlyCounts(attempts: seq<PathKind>, kind: PathKind, k: PathKind)
    ensures multiset(Only(attempts, kind))[k] == if k == kind then multiset(attempts)[k] else 0
  {
    if attempts != [] {
      OnlyCounts(attempts[1..], kind, k);
      assert attempts == [attempts[0]] + attempts[1..];
    }
  }

  /** Grouping loses and invents no attempt. */
  lemma GroupingKeepsAttempts(attempts: seq<PathKind>)
    ensures multiset(DirectGroups(attempts) + RelayGroup(attempts)) == multiset(attempts)
    ensures forall k | k in DirectGroups(attempts) :: IsDirect(k)
    ensures forall k | k in RelayGroup(attempts) :: !IsDirect(k)
  {
    hide Only;
    forall k ensures multiset(DirectGroups(attempts) + RelayGroup(attempts))[k] == multiset(attempts)[k] {
      OnlyCounts(attempts, QuicV6, k);
      OnlyCounts(attempts, QuicV4, k);
      OnlyCounts(attempts, NativeTcp, k);
      OnlyCounts(attempts, RelayPath, k);
    }
  }

  // ---------------------------------------------------------------------------
  // Running attempts
  // ---------------------------------------------------------------------------

  function One(kind: PathKind, direct: bool): nat {
    if IsDirect(kind) == direct then 1 else 0
  }

  /** How many attempts of one class are running. */
  function Active(running: seq<Running>, direct: bool): nat {
    if running == [] then 0
    else Active(running[..|running| - 1], direct) + One(running[|running| - 1].kind, direct)
  }

  function Upto(n: nat): (s: set<nat>)
    ensures forall x: nat :: x in s <==> x < n
  {
    if n == 0 then {} else Upto(n - 1) + {n - 1}
  }

  function Ids(running: seq<Running>): set<nat> {
    set r | r in running :: r.id
  }

  /** The running attempts are exactly the started ones that have not failed. */
  ghost predicate Tracks(running: seq<Running>, kinds: seq<PathKind>, failed: set<nat>) {
    && (forall i, j | 0 <= i < j < |running| :: running[i].id != running[j].id)
    && (forall r | r in running :: r.id < |kinds| && r.kind == kinds[r.id])
    && Ids(running) == Upto(|kinds|) - failed && failed <= Upto(|kinds|)
  }

  /** The last element takes the place of the removed one. */
  function SwapRemove(running: seq<Running>, i: nat): seq<Running>
    requires i < |running|
  {
    var last := |running| - 1;
    if i == last then running[..last] else running[..last][i := running[last]]
  }

  lemma {:induction false} ActiveUpdate(running: seq<Running>, i: nat, r: Running, direct: bool)
    requires i < |running|
    ensures Active(running[i := r], direct) + One(running[i].kind, direct) ==
      Active(running, direct) + One(r.kind, direct)
  {
    var n := |running| - 1;
    if i == n {
      assert running[i := r][..n] == running[..n];
    } else {
      ActiveUpdate(running[..n], i, r, direct);
      assert running[i := r][..n] == running[..n][i := r];
    }
  }

  lemma RemovalCounts(running: seq<Running>, i: nat, direct: bool)
    requires i < |running|
    ensures Active(SwapRemove(running, i), direct) + One(running[i].kind, direct) == Active(running, direct)
  {
    var last := |running| - 1;
    if i < last {
      ActiveUpdate(running[..last], i, running[last], direct);
    }
  }

  lemma RemovalTracks(running: seq<Running>, kinds: seq<PathKind>, failed: set<nat>, i: nat)
    requires Tracks(running, kinds, failed) && i < |running|
    ensures Tracks(SwapRemove(running, i), kinds, failed + {running[i].id})
    ensures running[i] in running && running[i].id in Ids(running)
  {
    var rest := SwapRemove(running, i);
    assert running[i] in running;
    forall r | r in rest ensures r in running && r.id != running[i].id {
      var k :| 0 <= k < |rest| && rest[k] == r;
      assert r == running[k] || r == running[|running| - 1];
    }
    forall id | id in Ids(running) && id != running[i].id ensures id in Ids(rest) {
      var k :| 0 <= k < |running| && running[k].id == id;
      assert k != i;
      assert if k == |running| - 1 then rest[i] == running[k] else rest[k] == running[k];
      assert running[k] in rest;
    }
  }

  lemma SpawnTracks(running: seq<Running>, kinds: seq<PathKind>, failed: set<nat>, kind: PathKind)
    requires Tracks(running, kinds, failed)
    ensures var r := Running(|kinds|, kind);
      && Tracks(running + [r], kinds + [kind], failed)
      && forall d :: Active(running + [r], d) == Active(running, d) + One(kind, d)
  {
    var r := Running(|kinds|, kind);
    var more := running + [r];
    assert more[..|running|] == running;
    forall i | 0 <= i < |running| ensures running[i].id < |kinds| {
      assert running[i] in running;
    }
    forall x | x in Upto(|kinds| + 1) - failed ensures x in Ids(more) {
      if x == |kinds| {
        assert r in more;
      } else {
        assert x in Ids(running);
        var y :| y in running && y.id == x;
        assert y in more;
      }
    }
  }

  /** Starts every attempt of a group, giving each the next id. */
  method SpawnGroup(group: seq<PathKind>, running0: seq<Running>, kinds0: seq<PathKind>, ghost failed: set<nat>)
    returns (running: seq<Running>, kinds: seq<PathKind>)
    requires Tracks(running0, kinds0, failed)
    ensures Tracks(running, kinds, failed) && kinds == kinds0 + group
    ensures forall direct :: Active(running, direct) == Active(running0, direct) + Members(group, direct)
  {
    hide Tracks, Active;
    running, kinds := running0, kinds0;
    for i := 0 to |group|
      invariant Tracks(running, kinds, failed) && kinds == kinds0 + group[..i]
      invariant forall direct :: Active(running, direct) == Active(running0, direct) + Members(group[..i], direct)
    {
      SpawnTracks(running, kinds, failed, group[i]);
      assert group[..i + 1][..i] == group[..i];
      running := running + [Running(|kinds|, group[i])];
      kinds := kinds + [group[i]];
    }
    assert group[..|group|] == group;
  }

  function Members(group: seq<PathKind>, direct: bool): nat {
    if group == [] then 0 else Members(group[..|group| - 1], direct) + One(group[|group| - 1], direct)
  }

  lemma {:induction false} MembersOfClass(group: seq<PathKind>, direct: bool)
    requires forall k | k in group :: IsDirect(k) == direct
    ensures Members(group, direct) == |group| && Members(group, !direct) == 0
  {
    if group != [] {
      MembersOfClass(group[..|group| - 1], direct);
    }
  }

  // ---------------------------------------------------------------------------
  // The race
  // ---------------------------------------------------------------------------

  /** What a race may leave behind, by outcome. */
  ghost predicate Exact(attempts: seq<PathKind>, begin: nat, grace: nat, outcome: Outcome, t: Trace) {
    var direct, relay := DirectGroups(attempts), RelayGroup(attempts);
    var all := Upto(|t.kinds|);
    && t.kinds == direct + (if t.relayAt.Some? then relay else [])
    && (direct != [] && t.relayAt.Some? ==> t.relayAt.value >= begin + grace)
    && t.failed <= all
    && t.directActive == Active(t.running, true) && t.relayActive == Active(t.running, false)
    && match outcome
       case NoViablePath => t.relayAt.Some? && t.failed == all && t.cancelled == all && t.running == []
       case Cancelled => t.cancelled == all && Tracks(t.running, t.kinds, t.failed)
       case Won(id, kind) =>
         && id in all && t.kinds[id] == kind && id !in t.failed && t.cancelled == all - {id}
         && Tracks(t.running, t.kinds, t.failed + {id})
       case StillRacing => t.cancelled == t.failed && Tracks(t.running, t.kinds, t.failed)
  }

  /** The race is on: nothing is cancelled but what failed, and no relay runs unstarted. */
  ghost predicate Going(attempts: seq<PathKind>, begin: nat, grace: nat, t: Trace) {
    Exact(attempts, begin, grace, StillRacing, t) && (t.relayAt.None? ==> t.relayActive == 0)
  }

  method StartDirect(attempts: seq<PathKind>, ghost begin: nat, ghost grace: nat) returns (t: Trace)
    ensures Going(attempts, begin, grace, t) && t.kinds == DirectGroups(attempts) && t.relayAt.None?
    ensures t.failed == {}
  {
    hide Only, Active, Tracks, Upto, DirectGroups, RelayGroup;
    var direct := DirectGroups(attempts);
    GroupingKeepsAttempts(attempts);
    NothingRuns();
    var running, kinds := SpawnGroup(direct, [], [], {});
    MembersOfClass(direct, true);
    assert [] + direct == direct && direct + [] == direct;
    t := Trace(kinds, None, {}, {}, running, |direct|, 0);
  }

  method StartRelay(attempts: seq<PathKind>, ghost begin: nat, ghost grace: nat, now: nat, t0: Trace) returns (t: Trace)
    requires Going(attempts, begin, grace, t0) && t0.relayAt.None?
    requires DirectGroups(attempts) != [] ==> now >= begin + grace
    ensures Going(attempts, begin, grace, t) && t.relayAt == Some(now) && t.failed == t0.failed
  {
    hide Only, Active, Tracks, DirectGroups, RelayGroup;
    var relay := RelayGroup(attempts);
    GroupingKeepsAttempts(attempts);
    var running, kinds := SpawnGroup(relay, t0.running, t0.kinds, t0.failed);
    MembersOfClass(relay, false);
    assert t0.kinds + [] == t0.kinds;
    t := t0.(kinds := kinds, relayAt := Some(now), running := running, relayActive := |relay|);
  }

  /** Cancels every attempt that still runs. */
  function Cleanup(t: Trace): Trace {
    t.(cancelled := t.cancelled + Ids(t.running))
  }

  lemma CleanupCancelsAll(attempts: seq<PathKind>, begin: nat, grace: nat, t: Trace)
    requires Going(attempts, begin, grace, t)
    ensures Exact(attempts, begin, grace, Cancelled, Cleanup(t))
    ensures t.directActive == 0 && t.relayActive == 0 && t.relayAt.Some? ==>
      Exact(attempts, begin, grace, NoViablePath, Cleanup(t))
  {
  }

  /** Where the attempt with this id is among the running ones. */
  method Position(running: seq<Running>, id: nat) returns (at: Option<nat>)
    ensures at.Some? ==> at.value < |running| && running[at.value].id == id
    ensures at.None? ==> forall r | r in running :: r.id != id
  {
    for i := 0 to |running|
      invariant forall r | r in running[..i] :: r.id != id
    {
      if running[i].id == id {
        return Some(i);
      }
      assert running[..i + 1] == running[..i] + [running[i]];
    }
    assert running[..|running|] == running;
    at := None;
  }

  /** One attempt ends: it wins, or it counts as failed and the race goes on; a stranger is ignored. */
  method EndAttempt(attempts: seq<PathKind>, ghost begin: nat, ghost grace: nat, id: nat, path: Option<PathKind>,
      t0: Trace)
    returns (outcome: Outcome, t: Trace)
    requires Going(attempts, begin, grace, t0)
    ensures outcome == StillRacing ==> Going(attempts, begin, grace, t)
    ensures outcome != StillRacing ==> outcome.Won? && Exact(attempts, begin, grace, outcome, t)
    ensures outcome ==
      if id < |t0.kinds| && id !in t0.failed && path == Some(t0.kinds[id]) then Won(id, t0.kinds[id]) else StillRacing
    ensures t.relayAt == t0.relayAt && t.kinds == t0.kinds
    ensures t.failed == if outcome == StillRacing && id < |t0.kinds| then t0.failed + {id} else t0.failed
  {
    hide Tracks, Active, DirectGroups, RelayGroup, Ids;
    var at := Position(t0.running, id);
    AllCancelled(t0.running, t0.kinds, t0.failed);
    if at.None? {
      NotRunning(t0.running, t0.kinds, t0.failed, id);
      return StillRacing, t0;
    }
    var completed, running, direct, relay :=
      Complete(at.value, t0.running, t0.kinds, t0.failed, t0.directActive, t0.relayActive);
    t := t0.(running := running, directActive := direct, relayActive := relay);
    if path == Some(completed.kind) {
      OthersCancelled(running, t.kinds, t.failed, completed.id);
      return Won(completed.id, completed.kind), Cleanup(t);
    }
    outcome, t := StillRacing, t.(failed := t.failed + {completed.id}, cancelled := t.cancelled + {completed.id});
  }

  lemma NotRunning(running: seq<Running>, kinds: seq<PathKind>, failed: set<nat>, id: nat)
    requires Tracks(running, kinds, failed) && forall r | r in running :: r.id != id
    ensures id < |kinds| ==> id in failed
    ensures id < |kinds| ==> failed + {id} == failed
  {
    assert id !in Ids(running);
  }

  // ---------------------------------------------------------------------------
  // The race from its schedule alone
  // ---------------------------------------------------------------------------

  /** The attempts in the order of their ids, when all are started. */
  function Numbered(attempts: seq<PathKind>): seq<PathKind> {
    DirectGroups(attempts) + RelayGroup(attempts)
  }

  /** Relay waits for its grace only when there is a direct attempt. */
  function RelayStart(attempts: seq<PathKind>, begin: nat, grace: nat): nat {
    if exists k | k in attempts :: IsDirect(k) then begin + grace else begin
  }

  /** When relay starts: at the first moment at which it is due. */
  function RelayTime(attempts: seq<PathKind>, begin: nat, grace: nat, moments: seq<Moment>): Option<nat> {
    if moments == [] then None
    else
      var before, m := RelayTime(attempts, begin, grace, moments[..|moments| - 1]), moments[|moments| - 1];
      if before.None? && m.now >= RelayStart(attempts, begin, grace) then Some(m.now) else before
  }

  /** How many attempts have been started by the last of these moments. */
  function StartedBy(attempts: seq<PathKind>, begin: nat, grace: nat, moments: seq<Moment>): nat {
    if RelayTime(attempts, begin, grace, moments).Some? then |Numbered(attempts)| else |DirectGroups(attempts)|
  }

  /** The attempts that have ended during these moments. */
  function EndedBy(attempts: seq<PathKind>, begin: nat, grace: nat, moments: seq<Moment>): set<nat> {
    if moments == [] then {}
    else
      var before, h := EndedBy(attempts, begin, grace, moments[..|moments| - 1]), moments[|moments| - 1].happening;
      if h.AttemptEnded? && h.id < StartedBy(attempts, begin, grace, moments) then before + {h.id} else before
  }

  /** What the last of these moments decides, when none before it decided anything. */
  function Decision(attempts: seq<PathKind>, begin: nat, grace: nat, moments: seq<Moment>): Outcome
    requires moments != []
  {
    var h, ended := moments[|moments| - 1].happening, EndedBy(attempts, begin, grace, moments[..|moments| - 1]);
    if RelayTime(attempts, begin, grace, moments).Some? && ended == Upto(|Numbered(attempts)|) then NoViablePath
    else if IsCancellation(h) then Cancelled
    else if h.AttemptEnded? && h.id < StartedBy(attempts, begin, grace, moments) <= |Numbered(attempts)|
            && h.id !in ended && h.path == Some(Numbered(attempts)[h.id])
    then Won(h.id, Numbered(attempts)[h.id])
    else StillRacing
  }

  /** The outcome of a race: the first decision. */
  function OutcomeOf(attempts: seq<PathKind>, begin: nat, grace: nat, moments: seq<Moment>): Outcome {
    if moments == [] then StillRacing
    else
      var before := OutcomeOf(attempts, begin, grace, moments[..|moments| - 1]);
      if before != StillRacing then before else Decision(attempts, begin, grace, moments)
  }

  lemma {:induction false} DecidedStays(attempts: seq<PathKind>, begin: nat, grace: nat, moments: seq<Moment>, n: nat)
    requires n <= |moments| && OutcomeOf(attempts, begin, grace, moments[..n]) != StillRacing
    ensures OutcomeOf(attempts, begin, grace, moments) == OutcomeOf(attempts, begin, grace, moments[..n])
  {
    hide Decision;
    if n == |moments| {
      assert moments[..n] == moments;
    } else {
      var last := |moments| - 1;
      assert moments[..last][..n] == moments[..n];
      DecidedStays(attempts, begin, grace, moments[..last], n);
    }
  }

  /** What each outcome says of the schedule. */
  lemma {:induction false} OutcomesMean(attempts: seq<PathKind>, begin: nat, grace: nat, moments: seq<Moment>)
    ensures var o := OutcomeOf(attempts, begin, grace, moments);
      && (o == Cancelled ==> exists m | m in moments ::
            m.happening.CallerCancelled? || m.happening.OperationCancelled? || m.happening.LifetimeCancelled?)
      && (o.Won? ==>
            && (exists m | m in moments :: m.happening == AttemptEnded(o.id, Some(o.kind)))
            && o.id < |Numbered(attempts)| && Numbered(attempts)[o.id] == o.kind)
      && (o == NoViablePath ==> RelayTime(attempts, begin, grace, moments).Some?)
      && (o == StillRacing ==> forall m | m in moments ::
            !m.happening.CallerCancelled? && !m.happening.OperationCancelled? && !m.happening.LifetimeCancelled?)
  {
    hide DirectGroups, RelayGroup, EndedBy, StartedBy;
    if moments != [] {
      var n := |moments| - 1;
      OutcomesMean(attempts, begin, grace, moments[..n]);
      assert moments == moments[..n] + [moments[n]];
      assert forall m | m in moments[..n] :: m in moments;
      assert moments[n] in moments;
    }
  }

  /** Relay has not started only while it was never due, and it starts the first time it is. */
  lemma {:induction false} RelayStartsWhenDue(attempts: seq<PathKind>, begin: nat, grace: nat, moments: seq<Moment>)
    ensures var t := RelayTime(attempts, begin, grace, moments);
      var due := if exists k | k in attempts :: IsDirect(k) then begin + grace else begin;
      && (t.None? <==> forall m | m in moments :: m.now < due)
      && (t.Some? ==> exists i | 0 <= i < |moments| ::
            moments[i].now == t.value >= due && forall j | 0 <= j < i :: moments[j].now < due)
  {
    if moments != [] {
      var n := |moments| - 1;
      var before := moments[..n];
      RelayStartsWhenDue(attempts, begin, grace, before);
      assert moments == before + [moments[n]];
      if RelayTime(attempts, begin, grace, before).Some? {
        var due := RelayStart(attempts, begin, grace);
        var i :| 0 <= i < |before| && before[i].now == RelayTime(attempts, begin, grace, before).value >= due
                 && forall j | 0 <= j < i :: before[j].now < due;
        assert moments[i] == before[i] && moments[i] in moments;
        assert forall j | 0 <= j < i :: moments[j] == before[j];
      } else {
        assert forall j | 0 <= j < n :: moments[j] == before[j] && before[j] in before;
        assert moments[n] in moments;
      }
    }
  }

  lemma DirectGroupsExist(attempts: seq<PathKind>)
    ensures DirectGroups(attempts) != [] <==> exists k | k in attempts :: IsDirect(k)
  {
    hide Only;
    GroupingKeepsAttempts(attempts);
    var direct, all := DirectGroups(attempts), DirectGroups(attempts) + RelayGroup(attempts);
    if direct != [] {
      assert direct[0] in multiset(all);
      assert direct[0] in multiset(attempts);
      assert direct[0] in attempts && IsDirect(direct[0]);
    }
    if k :| k in attempts && IsDirect(k) {
      assert k in multiset(attempts);
      assert k in multiset(all);
      assert k in all;
      assert k in direct;
    }
  }

  /** The trace after these moments, none of which decided the race. */
  ghost predicate Follows(attempts: seq<PathKind>, begin: nat, grace: nat, moments: seq<Moment>, t: Trace) {
    && Going(attempts, begin, grace, t)
    && t.relayAt == RelayTime(attempts, begin, grace, moments)
    && t.failed == EndedBy(attempts, begin, grace, moments)
    && OutcomeOf(attempts, begin, grace, moments) == StillRacing
  }

  /** The trace just before the last of these moments happens: relay is started if it is due. */
  ghost predicate Ready(attempts: seq<PathKind>, begin: nat, grace: nat, moments: seq<Moment>, t: Trace)
    requires moments != []
  {
    var before := moments[..|moments| - 1];
    && Going(attempts, begin, grace, t)
    && t.relayAt == RelayTime(attempts, begin, grace, moments)
    && t.failed == EndedBy(attempts, begin, grace, before)
    && OutcomeOf(attempts, begin, grace, before) == StillRacing
  }

  /** All attempts have been started and none is running any more. */
  lemma ExhaustedIffAllEnded(attempts: seq<PathKind>, begin: nat, grace: nat, moments: seq<Moment>, t: Trace)
    requires moments != [] && Ready(attempts, begin, grace, moments, t)
    ensures t.directActive == 0 && t.relayAt.Some? && t.relayActive == 0 <==>
      RelayTime(attempts, begin, grace, moments).Some? &&
      EndedBy(attempts, begin, grace, moments[..|moments| - 1]) == Upto(|Numbered(attempts)|)
  {
    hide RelayTime, EndedBy, OutcomeOf, DirectGroups, RelayGroup, Only;
    NoneActiveIffAllFailed(t.running, t.kinds, t.failed);
  }

  lemma {:induction false} ActiveSums(running: seq<Running>)
    ensures Active(running, true) + Active(running, false) == |running|
  {
    if running != [] {
      ActiveSums(running[..|running| - 1]);
    }
  }

  lemma NoneActiveIffAllFailed(running: seq<Running>, kinds: seq<PathKind>, failed: set<nat>)
    requires Tracks(running, kinds, failed)
    ensures Active(running, true) == 0 && Active(running, false) == 0 <==> failed == Upto(|kinds|)
  {
    hide Active;
    ActiveSums(running);
    if running != [] {
      assert running[0] in running && running[0].id in Ids(running);
    } else {
      assert Ids(running) == {};
    }
  }

  lemma StartedKinds(attempts: seq<PathKind>, begin: nat, grace: nat, moments: seq<Moment>, t: Trace)
    requires moments != [] && Ready(attempts, begin, grace, moments, t)
    ensures |t.kinds| == StartedBy(attempts, begin, grace, moments) <= |Numbered(attempts)|
    ensures t.kinds == Numbered(attempts)[..|t.kinds|]
  {
    hide RelayTime, EndedBy, OutcomeOf, DirectGroups, RelayGroup, Tracks, Active, Upto;
    var direct := DirectGroups(attempts);
    assert direct + [] == direct;
    assert (direct + RelayGroup(attempts))[..|direct|] == direct;
  }

  /**
   The race over any schedule has exactly the outcome the schedule calls for: the first
   cancellation, the first attempt to end with a path of its own kind, or the end of every
   attempt, relay included. Relay starts at the first moment at which it is due. The active
   counters are exactly the running attempts of each class, and on return every attempt but
   the winner is cancelled.
   */
  method RaceAttempts(attempts: seq<PathKind>, begin: nat, grace: nat, moments: seq<Moment>)
    returns (outcome: Outcome, t: Trace)
    ensures Exact(attempts, begin, grace, outcome, t)
    ensures outcome == OutcomeOf(attempts, begin, grace, moments)
    ensures outcome == StillRacing ==>
      && t.relayAt == RelayTime(attempts, begin, grace, moments)
      && t.failed == EndedBy(attempts, begin, grace, moments)
    ensures t.relayAt.Some? ==> t.relayAt == RelayTime(attempts, begin, grace, moments)
  {
    hide Exact, DirectGroups, Decision, RelayTime, EndedBy, OutcomeOf;
    DirectGroupsExist(attempts);
    t := StartDirect(attempts, begin, grace);
    var relayStart := if t.kinds != [] then begin + grace else begin;
    NothingYet(attempts, begin, grace);
    assert moments[..0] == [];
    for i := 0 to |moments|
      invariant Follows(attempts, begin, grace, moments[..i], t)
    {
      var m := moments[i];
      ghost var seen := moments[..i + 1];
      assert seen[..|seen| - 1] == moments[..i] && seen[|seen| - 1] == m;
      RelayNext(attempts, begin, grace, seen);
      if t.relayAt.None? && m.now >= relayStart {
        t := StartRelay(attempts, begin, grace, m.now, t);
      }
      assert Ready(attempts, begin, grace, seen, t);
      ExhaustedIffAllEnded(attempts, begin, grace, seen, t);
      StartedKinds(attempts, begin, grace, seen, t);
      CleanupCancelsAll(attempts, begin, grace, t);
      DecisionIs(attempts, begin, grace, seen);
      if t.directActive == 0 && t.relayAt.Some? && t.relayActive == 0 {
        DecidedStays(attempts, begin, grace, moments, i + 1);
        RelayStays(attempts, begin, grace, moments, i + 1);
        return NoViablePath, Cleanup(t);
      }
      match m.happening {
        case GraceElapsed =>
        case AttemptEnded(id, path) =>
          outcome, t := EndAttempt(attempts, begin, grace, id, path, t);
          if outcome != StillRacing {
            DecidedStays(attempts, begin, grace, moments, i + 1);
            RelayStays(attempts, begin, grace, moments, i + 1);
            return;
          }
        case _ =>
          DecidedStays(attempts, begin, grace, moments, i + 1);
          RelayStays(attempts, begin, grace, moments, i + 1);
          return Cancelled, Cleanup(t);
      }
    }
    assert moments[..|moments|] == moments;
    outcome := StillRacing;
  }

  lemma NothingYet(attempts: seq<PathKind>, begin: nat, grace: nat)
    ensures RelayTime(attempts, begin, grace, []) == None && EndedBy(attempts, begin, grace, []) == {}
    ensures OutcomeOf(attempts, begin, grace, []) == StillRacing
  {
  }

  lemma RelayNext(attempts: seq<PathKind>, begin: nat, grace: nat, moments: seq<Moment>)
    requires moments != []
    ensures RelayTime(attempts, begin, grace, moments) ==
      var before, m := RelayTime(attempts, begin, grace, moments[..|moments| - 1]), moments[|moments| - 1];
      if before.None? && m.now >= RelayStart(attempts, begin, grace) then Some(m.now) else before
  {
  }

  lemma {:induction false} RelayStays(attempts: seq<PathKind>, begin: nat, grace: nat, moments: seq<Moment>, n: nat)
    requires n <= |moments|
    ensures RelayTime(attempts, begin, grace, moments[..n]).Some? ==>
      RelayTime(attempts, begin, grace, moments) == RelayTime(attempts, begin, grace, moments[..n])
  {
    if n == |moments| {
      assert moments[..n] == moments;
    } else {
      var last := |moments| - 1;
      assert moments[..last][..n] == moments[..n];
      RelayStays(attempts, begin, grace, moments[..last], n);
    }
  }

  lemma DecisionIs(attempts: seq<PathKind>, begin: nat, grace: nat, moments: seq<Moment>)
    requires moments != [] && OutcomeOf(attempts, begin, grace, moments[..|moments| - 1]) == StillRacing
    ensures var h, ended := moments[|moments| - 1].happening, EndedBy(attempts, begin, grace, moments[..|moments| - 1]);
      var started := StartedBy(attempts, begin, grace, moments);
      && started <= |Numbered(attempts)|
      && OutcomeOf(attempts, begin, grace, moments) ==
           (if RelayTime(attempts, begin, grace, moments).Some? && ended == Upto(|Numbered(attempts)|) then NoViablePath
            else if IsCancellation(h) then Cancelled
            else if h.AttemptEnded? && h.id < started && h.id !in ended && h.path == Some(Numbered(attempts)[h.id])
            then Won(h.id, Numbered(attempts)[h.id])
            else StillRacing)
      && EndedBy(attempts, begin, grace, moments) ==
           (if h.AttemptEnded? && h.id < started then ended + {h.id} else ended)
  {
    hide DirectGroups, RelayGroup;
  }

  /** Takes one attempt out of its class; the subtraction never saturates. */
  method DecrementActive(kind: PathKind, direct: nat, relay: nat) returns (direct': nat, relay': nat)
    requires One(kind, true) <= direct && One(kind, false) <= relay
    ensures direct' + One(kind, true) == direct && relay' + One(kind, false) == relay
  {
    if kind.RelayPath? {
      direct', relay' := direct, SaturatingSub(relay, 1);
    } else {
      direct', relay' := SaturatingSub(direct, 1), relay;
    }
  }

  lemma NothingRuns()
    ensures Tracks([], [], {}) && Active([], true) == 0 && Active([], false) == 0
  {
  }

  /** Cancelling what runs cancels everything that has not failed. */
  lemma AllCancelled(running: seq<Running>, kinds: seq<PathKind>, failed: set<nat>)
    requires Tracks(running, kinds, failed)
    ensures failed + Ids(running) == Upto(|kinds|) && failed <= Upto(|kinds|) && Ids(running) !! failed
    ensures forall r | r in running ::
      r.id in Upto(|kinds|) && r.id < |kinds| && kinds[r.id] == r.kind && r.id !in failed
  {
    forall r | r in running ensures r.id in Ids(running) {
    }
  }

  lemma OthersCancelled(rest: seq<Running>, kinds: seq<PathKind>, failed: set<nat>, id: nat)
    requires Tracks(rest, kinds, failed + {id}) && id < |kinds| && id !in failed
    ensures failed + Ids(rest) == Upto(|kinds|) - {id}
  {
    assert Ids(rest) == Upto(|kinds|) - (failed + {id});
  }

  /** Takes an ended attempt out of the running ones and out of its counter. */
  method Complete(at: nat, running0: seq<Running>, kinds: seq<PathKind>, ghost failed: set<nat>, direct0: nat,
      relay0: nat)
    returns (completed: Running, running: seq<Running>, direct: nat, relay: nat)
    requires Tracks(running0, kinds, failed) && at < |running0|
    requires direct0 == Active(running0, true) && relay0 == Active(running0, false)
    ensures Tracks(running, kinds, failed + {completed.id})
    ensures direct == Active(running, true) && relay == Active(running, false)
    ensures completed in running0 && completed.id < |kinds| && kinds[completed.id] == completed.kind
    ensures completed.id !in failed && completed.id in Upto(|kinds|)
    ensures direct <= direct0 && relay <= relay0 && completed == running0[at]
  {
    completed := running0[at];
    AllCancelled(running0, kinds, failed);
    RemovalTracks(running0, kinds, failed, at);
    RemovalCounts(running0, at, true);
    RemovalCounts(running0, at, false);
    hide Tracks, Active, SwapRemove, Ids;
    running := SwapRemove(running0, at);
    direct, relay := DecrementActive(completed.kind, direct0, relay0);
  }
}
