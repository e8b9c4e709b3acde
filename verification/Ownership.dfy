/**
 The crash-safe ownership protocol of the history database. Two durable markers and a
 family of files are changed only by atomic moves and replacements; the power may fail
 before any of them. Opening finishes whatever an earlier process left undone.
 */
module Ownership {
  import opened Wrappers

  /** A random owner or activation nonce. */
  type Nonce = nat

  const QUARANTINE_LIMIT: nat := 1000

  datatype Member =
    | Main(active: Nonce) | Shm(active: Nonce) | Wal(active: Nonce) | Journal(active: Nonce)
    | Identity | Proof | Pending | Ready

  /** A file in its own place, or under the same name in a quarantine directory. */
  datatype Path = Live(member: Member) | Quarantined(counter: nat, member: Member)

  datatype Ownership = Matches | Unreadable | Mismatch

  datatype Content =
    | Database(ownership: Ownership, sound: bool)
    | Sidecar(data: nat)
    | StoreProof(nonce: Nonce)
    | ReadyMark(nonce: Nonce, active: Nonce)
    | IdleMark(nonce: Nonce, active: Nonce)
    | ActivateMark(nonce: Nonce, active: Nonce, previous: Nonce)

  datatype File = File(identity: nat, content: Content)

  type Files = map<Path, File>

  /** The database family: what the protocol must keep together, whatever crashes. */
  datatype Family = Family(
    nonce: Nonce, main: File, shm: Option<File>, wal: Option<File>, identity: File, proof: File)

  function Moved(files: Files, source: Path, target: Path): Files
    requires source in files
  {
    (files - {source})[target := files[source]]
  }

  /** No file has the identity yet. */
  predicate NewIdentity(files: Files, identity: nat) {
    forall p | p in files :: files[p].identity != identity
  }

  lemma {:induction false} IdentitiesAreBounded(files: Files) returns (bound: nat)
    ensures forall p | p in files :: files[p].identity < bound
    decreases |files|
  {
    if files == map[] {
      bound := 0;
    } else {
      var p :| p in files;
      var rest := files - {p};
      assert rest.Keys == files.Keys - {p};
      bound := IdentitiesAreBounded(rest);
      bound := Max(bound, files[p].identity + 1);
      assert forall q | q in files && q != p :: q in rest && rest[q] == files[q];
    }
  }

  lemma NewIdentityExists(files: Files)
    ensures exists identity: nat :: NewIdentity(files, identity)
  {
    var bound := IdentitiesAreBounded(files);
    assert NewIdentity(files, bound);
  }

  // ---------------------------------------------------------------------------
  // Phases
  // ---------------------------------------------------------------------------

  /** What the main file says of its owner; what is not a readable database says nothing. */
  function OwnerOf(c: Content): Ownership {
    if c.Database? then c.ownership else Unreadable
  }

  /** The main file passes validation under the expected nonce. */
  predicate IsSound(c: Content) {
    c.Database? && c.sound && c.ownership == Matches
  }

  /** The store's proof carries the nonce and the main file is the one the store recorded. */
  predicate Ours(fam: Family) {
    fam.proof.content == StoreProof(fam.nonce) && fam.identity.identity == fam.main.identity
  }

  /** A family the store recorded: owned by its nonce as far as it can be read. */
  predicate Genuine(fam: Family) {
    Ours(fam) && OwnerOf(fam.main.content) != Mismatch
  }

  /** A rollback journal lies beside the database. */
  predicate Journaled(files: Files, a: Nonce) {
    Live(Journal(a)) in files
  }

  /** The optional file is at `p`, and nowhere when it is absent. */
  predicate IsAt(files: Files, f: Option<File>, p: Path) {
    match f
    case None => p !in files
    case Some(x) => p in files && files[p] == x
  }

  /** The optional file is at exactly one of two places, and at neither when it is absent. */
  predicate AtOneOf(files: Files, f: Option<File>, p: Path, q: Path) {
    (IsAt(files, f, p) && q !in files) || (IsAt(files, f, q) && p !in files)
  }

  /** Where a member of a quarantine under way is: in its own place or already moved. */
  function Wherever(files: Files, q: nat, m: Member): Path {
    if Live(m) in files then Live(m) else Quarantined(q, m)
  }

  predicate IsFamilyMember(m: Member) {
    m.Main? || m.Shm? || m.Wal? || m.Journal?
  }

  /** No family file is in place under any other activation name, and none is a journal. */
  ghost predicate Alone(files: Files, a: Nonce, b: Nonce) {
    forall m | Live(m) in files && IsFamilyMember(m) :: !m.Journal? && (m.active == a || m.active == b)
  }

  ghost predicate NotQuarantined(files: Files, a: Nonce) {
    forall c: nat :: Quarantined(c, Main(a)) !in files
  }

  predicate Says(files: Files, p: Path, c: Content) {
    p in files && files[p].content == c
  }

  predicate StoreInPlace(files: Files, fam: Family) {
    IsAt(files, Some(fam.identity), Live(Identity)) && IsAt(files, Some(fam.proof), Live(Proof))
  }

  /** Both markers name `a` and the whole family is there. */
  ghost predicate AtRest(files: Files, fam: Family, a: Nonce) {
    && StoreInPlace(files, fam)
    && Says(files, Live(Ready), ReadyMark(fam.nonce, a)) && Says(files, Live(Pending), IdleMark(fam.nonce, a))
    && IsAt(files, Some(fam.main), Live(Main(a)))
    && IsAt(files, fam.shm, Live(Shm(a))) && IsAt(files, fam.wal, Live(Wal(a)))
    && Alone(files, a, a) && NotQuarantined(files, a)
  }

  /** The family is on its way from `prev` to `next`, the main file after its sidecars. */
  ghost predicate OnTheWay(files: Files, fam: Family, prev: Nonce, next: Nonce) {
    && prev != next && StoreInPlace(files, fam)
    && AtOneOf(files, Some(fam.main), Live(Main(prev)), Live(Main(next)))
    && AtOneOf(files, fam.shm, Live(Shm(prev)), Live(Shm(next)))
    && AtOneOf(files, fam.wal, Live(Wal(prev)), Live(Wal(next)))
    && Alone(files, prev, next) && NotQuarantined(files, prev) && NotQuarantined(files, next)
    && (Live(Main(next)) in files ==> IsAt(files, fam.shm, Live(Shm(next))) && IsAt(files, fam.wal, Live(Wal(next))))
  }

  ghost predicate Activating(files: Files, fam: Family, prev: Nonce, next: Nonce) {
    && OnTheWay(files, fam, prev, next)
    && Says(files, Live(Pending), ActivateMark(fam.nonce, next, prev))
    && (Says(files, Live(Ready), ReadyMark(fam.nonce, prev))
        || (Says(files, Live(Ready), ReadyMark(fam.nonce, next)) && Live(Main(next)) in files))
  }

  /** The main file is in quarantine directory `q`, the rest is in place or there already. */
  ghost predicate Leaving(files: Files, fam: Family, a: Nonce, q: nat) {
    && IsAt(files, Some(fam.main), Quarantined(q, Main(a)))
    && AtOneOf(files, fam.shm, Live(Shm(a)), Quarantined(q, Shm(a)))
    && AtOneOf(files, fam.wal, Live(Wal(a)), Quarantined(q, Wal(a)))
    && AtOneOf(files, Some(fam.identity), Live(Identity), Quarantined(q, Identity))
    && AtOneOf(files, Some(fam.proof), Live(Proof), Quarantined(q, Proof))
    && (Live(Pending) in files) != (Quarantined(q, Pending) in files)
    && (Says(files, Live(Pending), IdleMark(fam.nonce, a))
      || Says(files, Quarantined(q, Pending), IdleMark(fam.nonce, a)))
    && Says(files, Live(Ready), ReadyMark(fam.nonce, a)) && Quarantined(q, Ready) !in files
    && Alone(files, a, a) && Live(Main(a)) !in files
    && q < QUARANTINE_LIMIT && forall c: nat | c != q :: Quarantined(c, Main(a)) !in files
  }

  /** The whole family and both markers are in one quarantine directory. */
  ghost predicate Gone(files: Files, fam: Family, a: Nonce, q: nat) {
    && IsAt(files, Some(fam.main), Quarantined(q, Main(a)))
    && IsAt(files, fam.shm, Quarantined(q, Shm(a))) && IsAt(files, fam.wal, Quarantined(q, Wal(a)))
    && IsAt(files, Some(fam.identity), Quarantined(q, Identity)) && IsAt(files, Some(fam.proof), Quarantined(q, Proof))
    && Says(files, Quarantined(q, Pending), IdleMark(fam.nonce, a))
    && Says(files, Quarantined(q, Ready), ReadyMark(fam.nonce, a))
    && NothingInPlace(files)
  }

  ghost predicate NothingInPlace(files: Files) {
    && Live(Identity) !in files && Live(Proof) !in files && Live(Pending) !in files && Live(Ready) !in files
    && forall m | IsFamilyMember(m) :: Live(m) !in files
  }

  datatype Phase =
    | Rest(active: Nonce)
    | Activation(previous: Nonce, next: Nonce)
    | Quarantining(active: Nonce, counter: nat)
    | Departed(active: Nonce, counter: nat)

  ghost predicate InPhase(files: Files, fam: Family, p: Phase) {
    match p
    case Rest(a) => AtRest(files, fam, a)
    case Activation(prev, next) => Activating(files, fam, prev, next)
    case Quarantining(a, q) => Leaving(files, fam, a, q)
    case Departed(a, q) => Gone(files, fam, a, q)
  }

  /** Quarantined files lie in existing directories. */
  ghost predicate Filed(files: Files, directories: set<nat>) {
    forall p | p in files && p.Quarantined? :: p.counter in directories
  }

  /** Nothing that was in quarantine has been moved or overwritten. */
  ghost predicate KeepsQuarantine(before: Files, after: Files) {
    forall p | p in before && p.Quarantined? :: p in after && after[p] == before[p]
  }

  /** The files alone tell which phase an interrupted process was in; recovery never guesses. */
  lemma PhaseIsDetermined(files: Files, fam: Family, p: Phase, q: Phase)
    requires InPhase(files, fam, p) && InPhase(files, fam, q)
    ensures p == q || (p.Departed? && q.Departed?)
  {
  }

  datatype Status = Done | Crash | Refuse

  datatype Opening = Opened(active: Nonce) | Bootstrap(recovered: bool) | Crashed | Damaged | Refused

  /** The disk and the power left before the machine goes down. */
  class Disk {
    var files: Files
    var directories: set<nat>
    var power: nat

    constructor (files: Files, directories: set<nat>, power: nat)
      ensures this.files == files && this.directories == directories && this.power == power
    {
      this.files, this.directories, this.power := files, directories, power;
    }

    /** Atomic rename that never replaces; without power nothing happens. */
    method Move(source: Path, target: Path) returns (s: Status)
      requires source in files && source != target
      modifies this`files, this`power
      ensures target in old(files) ==> s == Refuse && files == old(files) && power == old(power)
      ensures target !in old(files) && old(power) == 0 ==> s == Crash && files == old(files) && power == 0
      ensures target !in old(files) && old(power) > 0 ==>
        s == Done && files == Moved(old(files), source, target) && power == old(power) - 1
    {
      if target in files { return Refuse; }
      if power == 0 { return Crash; }
      files := Moved(files, source, target);
      power := power - 1;
      s := Done;
    }

    /** Atomic replacement of a marker by a new file. */
    method Replace(p: Path, c: Content) returns (s: Status)
      requires p in files
      modifies this`files, this`power
      ensures old(power) == 0 ==> s == Crash && files == old(files) && power == 0
      ensures old(power) > 0 ==>
        && s == Done && power == old(power) - 1
        && p in files && files == old(files)[p := File(files[p].identity, c)]
        && NewIdentity(old(files), files[p].identity)
    {
      if power == 0 { return Crash; }
      NewIdentityExists(files);
      var identity: nat :| NewIdentity(files, identity);
      files := files[p := File(identity, c)];
      power := power - 1;
      s := Done;
    }

    /** Moves a file that may be absent or already moved. */
    method MoveOptional(source: Path, target: Path, required: bool) returns (s: Status)
      requires source != target
      modifies this`files, this`power
      ensures source in old(files) && target in old(files) ==> s == Refuse && files == old(files) && power == old(power)
      ensures source in old(files) && target !in old(files) ==>
        && (old(power) == 0 ==> s == Crash && files == old(files) && power == 0)
        && (old(power) > 0 ==> s == Done && files == Moved(old(files), source, target) && power == old(power) - 1)
      ensures source !in old(files) ==> files == old(files) && power == old(power)
      ensures source !in old(files) ==> s == if target in old(files) || !required then Done else Refuse
    {
      if source in files {
        s := Move(source, target);
      } else if target in files || !required {
        s := Done;
      } else {
        s := Refuse;
      }
    }

    /** The file at `p` shares the identity the store recorded. */
    predicate HasIdentity(p: Path)
      reads this
    {
      p in files && Live(Identity) in files && files[p].identity == files[Live(Identity)].identity
    }

    method MoveShm(prev: Nonce, next: Nonce, ghost fam: Family) returns (s: Status)
      requires OnTheWay(files, fam, prev, next)
      modifies this`files, this`power
      ensures OnTheWay(files, fam, prev, next) && s != Refuse && Undisturbed(old(files), files)
      ensures Live(Main(next)) in old(files) ==> Live(Main(next)) in files
      ensures s == Done ==> IsAt(files, fam.shm, Live(Shm(next)))
      ensures old(power) >= 1 ==> s == Done && power >= old(power) - 1
    {
      hide OnTheWay, Moved, Undisturbed;
      ShmOnTheWay(files, fam, prev, next);
      s := MoveOptional(Live(Shm(prev)), Live(Shm(next)), false);
    }

    method MoveWal(prev: Nonce, next: Nonce, ghost fam: Family) returns (s: Status)
      requires OnTheWay(files, fam, prev, next) && IsAt(files, fam.shm, Live(Shm(next)))
      modifies this`files, this`power
      ensures OnTheWay(files, fam, prev, next) && s != Refuse && Undisturbed(old(files), files)
      ensures Live(Main(next)) in old(files) ==> Live(Main(next)) in files
      ensures s == Done ==> IsAt(files, fam.shm, Live(Shm(next))) && IsAt(files, fam.wal, Live(Wal(next)))
      ensures old(power) >= 1 ==> s == Done && power >= old(power) - 1
    {
      hide OnTheWay, Moved, Undisturbed;
      WalOnTheWay(files, fam, prev, next);
      s := MoveOptional(Live(Wal(prev)), Live(Wal(next)), false);
    }

    method MoveMain(prev: Nonce, next: Nonce, ghost fam: Family) returns (s: Status)
      requires OnTheWay(files, fam, prev, next)
      requires IsAt(files, fam.shm, Live(Shm(next))) && IsAt(files, fam.wal, Live(Wal(next)))
      modifies this`files, this`power
      ensures OnTheWay(files, fam, prev, next) && s != Refuse && Undisturbed(old(files), files)
      ensures Live(Main(next)) in old(files) ==> Live(Main(next)) in files
      ensures s == Done ==> Live(Main(next)) in files
      ensures old(power) >= 1 ==> s == Done && power >= old(power) - 1
    {
      hide OnTheWay, Moved, Undisturbed;
      MainOnTheWay(files, fam, prev, next);
      s := MoveOptional(Live(Main(prev)), Live(Main(next)), true);
    }

    /** Moves sidecars first and the main file last; may be repeated after any crash. */
    method MoveFamily(prev: Nonce, next: Nonce, ghost fam: Family) returns (s: Status)
      requires OnTheWay(files - {Live(Journal(prev)), Live(Journal(next))}, fam, prev, next)
      modifies this`files, this`power
      ensures s == Refuse <==>
        fam.identity.identity != fam.main.identity || Journaled(old(files), prev) || Journaled(old(files), next)
      ensures s == Refuse ==> files == old(files) && power == old(power)
      ensures s != Refuse ==> OnTheWay(files, fam, prev, next) && Undisturbed(old(files), files)
      ensures s != Refuse && Live(Main(next)) in old(files) ==> Live(Main(next)) in files
      ensures s == Done ==> Live(Main(next)) in files
      ensures s != Refuse && old(power) >= 3 ==> s == Done && power >= old(power) - 3
    {
      hide OnTheWay, Undisturbed;
      IdentityOnTheWay(files - {Live(Journal(prev)), Live(Journal(next))}, fam, prev, next);
      UndisturbedComposes();
      var held := if Live(Main(next)) in files then Live(Main(next)) else Live(Main(prev));
      if !HasIdentity(held) { return Refuse; }
      if Live(Journal(prev)) in files || Live(Journal(next)) in files { return Refuse; }
      assert files - {Live(Journal(prev)), Live(Journal(next))} == files;
      s := MoveShm(prev, next, fam);
      if s != Done { return; }
      s := MoveWal(prev, next, fam);
      if s != Done { return; }
      s := MoveMain(prev, next, fam);
      if s != Done { return; }
      IdentityOnTheWay(files, fam, prev, next);
      if !HasIdentity(Live(Main(next))) { return Refuse; }
    }

    // -------------------------------------------------------------------------
    // Activation
    // -------------------------------------------------------------------------

    /** Points the ready marker and then the transition marker at the new name. */
    method PublishMarkers(prev: Nonce, next: Nonce, ghost fam: Family) returns (s: Status)
      requires Activating(files, fam, prev, next) && Live(Main(next)) in files
      modifies this`files, this`power
      ensures s != Refuse && SameQuarantine(old(files), files)
      ensures s == Done ==> AtRest(files, fam, next)
      ensures s == Crash ==> Activating(files, fam, prev, next)
      ensures old(power) >= 2 ==> s == Done
    {
      ghost var before := files;
      var nonce := files[Live(Ready)].content.nonce;
      if files[Live(Ready)].content.active == prev {
        s := Replace(Live(Ready), ReadyMark(nonce, next));
        if s != Done { return; }
        ReadyPublished(before, fam, prev, next, files[Live(Ready)].identity);
      } else if files[Live(Ready)].content != ReadyMark(nonce, next) {
        return Refuse;
      }
      hide Activating, AtRest;
      ghost var published := files;
      s := Replace(Live(Pending), IdleMark(nonce, next));
      if s != Done { return; }
      IdlePublished(published, fam, prev, next, files[Live(Pending)].identity);
    }

    /** Finishes an activation from any point at which it was interrupted. */
    method FinishActivation(prev: Nonce, next: Nonce, ghost fam: Family) returns (r: Opening)
      requires Activating(files - {Live(Journal(prev)), Live(Journal(next))}, fam, prev, next)
      modifies this`files, this`power
      ensures r in {Opened(next), Damaged, Crashed, Refused} && SameQuarantine(old(files), files)
      ensures r == Refused <==> !Ours(fam) || Journaled(old(files), prev) || Journaled(old(files), next)
      ensures r == Refused ==> files == old(files)
      ensures r == Crashed ==> Activating(files, fam, prev, next)
      ensures r == Opened(next) || r == Damaged ==>
        AtRest(files, fam, next) && (r == Damaged <==> !IsSound(fam.main.content))
      ensures old(power) >= 5 ==> r != Crashed
    {
      ghost var quiet := files - {Live(Journal(prev)), Live(Journal(next))};
      MarkersName(quiet, fam, prev, next);
      if files[Live(Proof)].content != StoreProof(files[Live(Pending)].content.nonce) { return Refused; }
      var s := MoveFamily(prev, next, fam);
      if s == Refuse { return Refused; }
      assert quiet == old(files);
      MarkersKept(old(files), files, fam, prev, next);
      if s == Crash { return Crashed; }
      hide Activating, OnTheWay, AtRest;
      s := PublishMarkers(prev, next, fam);
      if s == Crash { return Crashed; }
      RestHasMain(files, fam, next);
      r := if IsSound(files[Live(Main(next))].content) then Opened(next) else Damaged;
    }

    /** Starts an activation of a family at rest under a fresh name and runs it to the end. */
    method OpenReady(a: Nonce, next: Nonce, ghost fam: Family) returns (r: Opening)
      requires AtRest(files - {Live(Journal(a))}, fam, a) && Unused(files, next)
      modifies this`files, this`power
      ensures r in {Opened(next), Damaged, Crashed, Refused} && SameQuarantine(old(files), files)
      ensures r == Refused <==>
        || fam.proof.content != StoreProof(fam.nonce) || OwnerOf(fam.main.content) == Mismatch
        || (IsSound(fam.main.content) && (fam.identity.identity != fam.main.identity || Journaled(old(files), a)))
      ensures r == Damaged ==> !IsSound(fam.main.content)
      ensures r == Refused || r == Damaged ==> files == old(files)
      ensures r.Opened? ==> AtRest(files, fam, next)
      ensures r.Opened? || r == Crashed ==> Ours(fam) && IsSound(fam.main.content)
      ensures r == Crashed ==> (AtRest(files, fam, a) && files == old(files)) || Activating(files, fam, a, next)
      ensures old(power) >= 6 ==> r != Crashed
    {
      ghost var quiet := files - {Live(Journal(a))};
      RestHasMain(quiet, fam, a);
      var nonce := files[Live(Ready)].content.nonce;
      if files[Live(Proof)].content != StoreProof(nonce) { return Refused; }
      if OwnerOf(files[Live(Main(a))].content) == Mismatch { return Refused; }
      if !IsSound(files[Live(Main(a))].content) { return Damaged; }
      if Live(Journal(a)) in files || !HasIdentity(Live(Main(a))) { return Refused; }
      assert quiet == files;
      hide AtRest, Activating;
      var s := Replace(Live(Pending), ActivateMark(nonce, next, a));
      if s == Crash { return Crashed; }
      ActivationStarted(old(files), fam, a, next, files[Live(Pending)].identity);
      NoJournals(files, fam, a, next);
      r := FinishActivation(a, next, fam);
    }

    // -------------------------------------------------------------------------
    // Quarantine
    // -------------------------------------------------------------------------

    method MoveToQuarantine(m: Member, q: nat, required: bool, a: Nonce, ghost fam: Family) returns (s: Status)
      requires Leaving(files, fam, a, q) && m in {Shm(a), Wal(a), Identity, Proof, Pending}
      requires required ==> m in {Identity, Proof, Pending}
      modifies this`files, this`power
      ensures Leaving(files, fam, a, q) && s != Refuse && KeepsQuarantine(old(files), files)
      ensures s == Done ==> Live(m) !in files
      ensures forall x | Live(x) !in old(files) :: Live(x) !in files
      ensures Filed(old(files), directories) ==> Filed(files, directories)
      ensures old(power) >= 1 ==> s == Done && power >= old(power) - 1
    {
      MemberLeaves(files, fam, a, q, m, directories);
      hide Leaving;
      s := MoveOptional(Live(m), Quarantined(q, m), required);
    }

    /** Moves what is left of the family and then the markers, the ready marker last. */
    method FinishQuarantine(a: Nonce, q: nat, ghost fam: Family) returns (s: Status)
      requires Leaving(files, fam, a, q)
      modifies this`files, this`power
      ensures s != Refuse && KeepsQuarantine(old(files), files)
      ensures s == Done ==> Gone(files, fam, a, q)
      ensures s == Crash ==> Leaving(files, fam, a, q)
      ensures Filed(old(files), directories) ==> Filed(files, directories)
      ensures old(power) >= 6 ==> s == Done
    {
      hide Leaving, Gone, Filed;
      s := MoveToQuarantine(Shm(a), q, false, a, fam);
      if s != Done { return; }
      s := MoveToQuarantine(Wal(a), q, false, a, fam);
      if s != Done { return; }
      s := MoveToQuarantine(Identity, q, true, a, fam);
      if s != Done { return; }
      s := MoveToQuarantine(Proof, q, true, a, fam);
      if s != Done { return; }
      s := MoveToQuarantine(Pending, q, true, a, fam);
      if s != Done { return; }
      ReadyLeavesLast(files, fam, a, q, directories);
      s := Move(Live(Ready), Quarantined(q, Ready));
    }

    /** Creates the first quarantine directory that does not exist yet. */
    method AllocateQuarantine() returns (s: Status, q: nat)
      modifies this`directories, this`power
      ensures s == Done ==> q < QUARANTINE_LIMIT && q !in old(directories) && directories == old(directories) + {q}
      ensures s == Done ==> power == old(power) - 1 && forall c: nat | c < q :: c in old(directories)
      ensures s != Done ==> directories == old(directories) && power == old(power)
      ensures s == Crash ==> old(power) == 0
      ensures s == Refuse <==> forall c: nat | c < QUARANTINE_LIMIT :: c in old(directories)
    {
      q := 0;
      while q < QUARANTINE_LIMIT
        invariant q <= QUARANTINE_LIMIT && directories == old(directories) && power == old(power)
        invariant forall c: nat | c < q :: c in directories
      {
        if q !in directories {
          if power == 0 { return Crash, q; }
          directories := directories + {q};
          power := power - 1;
          return Done, q;
        }
        q := q + 1;
      }
      s := Refuse;
    }

    /** Sets the family aside; refuses in the middle of an activation. */
    method QuarantineDatabase(ghost fam: Family, ghost phase: Phase) returns (s: Status, ghost after: Phase)
      requires InPhase(files, fam, phase) && Filed(files, directories)
      modifies this
      ensures InPhase(files, fam, after) && Filed(files, directories) && KeepsQuarantine(old(files), files)
      ensures !phase.Rest? || !Genuine(fam) ==>
        s == Refuse && files == old(files) && directories == old(directories) && after == phase
      ensures s == Done ==> phase.Rest? && after.Departed?
      ensures s == Refuse ==> files == old(files) && after == phase
      ensures phase.Rest? && after != phase ==>
        && (after.Quarantining? || after.Departed?)
        && after.active == phase.active && after.counter !in old(directories)
      ensures old(directories) <= directories
      ensures phase.Rest? && Genuine(fam) && s == Refuse ==>
        forall c: nat | c < QUARANTINE_LIMIT :: c in old(directories)
      ensures phase.Rest? && old(power) >= 8 ==> s != Crash
    {
      hide InPhase, Filed, AtRest, Activating, Leaving, Gone;
      after := phase;
      PhaseFacts(files, fam, phase);
      if phase.Rest? { RestHasMain(files, fam, phase.active); }
      if Live(Ready) !in files { return Refuse, phase; }
      var marker := files[Live(Ready)].content;
      if Live(Main(marker.active)) !in files || !HasIdentity(Live(Main(marker.active))) { return Refuse, phase; }
      if Live(Pending) !in files || files[Live(Pending)].content != IdleMark(marker.nonce, marker.active) {
        return Refuse, phase;
      }
      if files[Live(Proof)].content != StoreProof(marker.nonce)
         || OwnerOf(files[Live(Main(marker.active))].content) == Mismatch
      {
        return Refuse, phase;
      }
      var a := marker.active;
      var q;
      s, q := AllocateQuarantine();
      if s != Done {
        return;
      }
      FiledWider(files, old(directories), directories);
      MainLeaves(files, fam, a, q, old(directories));
      s := Move(Live(Main(a)), Quarantined(q, Main(a)));
      if s != Done { return; }
      after := Quarantining(a, q);
      s := FinishQuarantine(a, q, fam);
      if s == Done {
        after := Departed(a, q);
      }
      PhaseAfterQuarantine(files, fam, a, q);
    }

    /** The checks on an interrupted quarantine, wherever each file is by now. */
    predicate QuarantineOwned(a: Nonce, q: nat, nonce: Nonce)
      reads this
    {
      var main, identity := Wherever(files, q, Main(a)), Wherever(files, q, Identity);
      var proof, pending := Wherever(files, q, Proof), Wherever(files, q, Pending);
      && main in files && identity in files && files[main].identity == files[identity].identity
      && OwnerOf(files[main].content) != Mismatch
      && proof in files && files[proof].content == StoreProof(nonce)
      && pending in files && files[pending].content == IdleMark(nonce, a)
    }

    /** Finds the directory an interrupted quarantine of the named database was moving to. */
    method FindInterrupted(a: Nonce) returns (found: bool, q: nat)
      ensures found ==> q < QUARANTINE_LIMIT && q in directories && Quarantined(q, Main(a)) in files
      ensures !found ==> forall c: nat | c < QUARANTINE_LIMIT && c in directories :: Quarantined(c, Main(a)) !in files
    {
      q := 0;
      while q < QUARANTINE_LIMIT
        invariant q <= QUARANTINE_LIMIT
        invariant forall c: nat | c < q && c in directories :: Quarantined(c, Main(a)) !in files
      {
        if q in directories && Quarantined(q, Main(a)) in files {
          return true, q;
        }
        q := q + 1;
      }
      found := false;
    }

    /** Finishes an interrupted quarantine; in any other phase it does nothing. */
    method ResumeQuarantine(ghost fam: Family, ghost phase: Phase) returns (s: Status, recovered: bool)
      requires InPhase(files, fam, phase) && Filed(files, directories)
      modifies this`files, this`power
      ensures Filed(files, directories) && KeepsQuarantine(old(files), files)
      ensures s == Refuse <==> phase.Quarantining? && !Genuine(fam)
      ensures s == Refuse ==> files == old(files) && power == old(power)
      ensures !phase.Quarantining? ==> s == Done && !recovered && files == old(files) && power == old(power)
      ensures phase.Quarantining? && s == Done ==>
        recovered && InPhase(files, fam, Departed(phase.active, phase.counter))
      ensures s == Crash ==> InPhase(files, fam, phase)
      ensures old(power) >= 6 ==> s != Crash
    {
      hide InPhase, Filed, AtRest, Activating, Leaving, Gone;
      PhaseFacts(files, fam, phase);
      ResumeFacts(files, directories, fam, phase);
      if Live(Ready) !in files { return Done, false; }
      var marker := files[Live(Ready)].content;
      var found, q := FindInterrupted(marker.active);
      if !found { return Done, false; }
      if !QuarantineOwned(marker.active, q, marker.nonce) { return Refuse, false; }
      s := MoveOptional(Live(Main(marker.active)), Quarantined(q, Main(marker.active)), true);
      s := FinishQuarantine(marker.active, q, fam);
      PhaseAfterQuarantine(files, fam, phase.active, phase.counter);
      recovered := s == Done;
    }

    /** Opens the history database, finishing whatever was interrupted first. */
    method Open(next: Nonce, ghost fam: Family, ghost phase: Phase) returns (r: Opening, ghost after: Phase)
      requires InPhase(files, fam, phase) && Filed(files, directories) && Unused(files, next)
      modifies this`files, this`power
      ensures InPhase(files, fam, after) && Filed(files, directories) && KeepsQuarantine(old(files), files)
      ensures Genuine(fam) ==> r != Refused
      ensures !Ours(fam) || (OwnerOf(fam.main.content) == Mismatch && !phase.Activation?) ==>
        files == old(files) && after == phase && (r in {Refused, Damaged} || phase.Departed?)
      ensures r.Opened? ==> after == Rest(r.active) && Ours(fam) && IsSound(fam.main.content)
      ensures r == Damaged ==> after.Rest? && !IsSound(fam.main.content)
      ensures r.Bootstrap? ==> after.Departed? && (r.recovered <==> phase.Quarantining?)
      ensures phase.Quarantining? || phase.Departed? ==> after in {phase, Departed(phase.active, phase.counter)}
      ensures phase.Rest? || phase.Activation? ==> after.Rest? || after.Activation?
      ensures old(power) >= 6 ==> r != Crashed
    {
      hide InPhase, Filed, AtRest, Activating, Leaving, Gone;
      after := phase;
      KeepsQuarantineComposes(files, files, files);
      var s, recovered := ResumeQuarantine(fam, phase);
      if s == Crash { return Crashed, phase; }
      if s == Refuse { return Refused, phase; }
      if phase.Quarantining? { after := Departed(phase.active, phase.counter); }
      PhaseFacts(files, fam, after);
      if Live(Ready) !in files {
        if Live(Pending) !in files { return Bootstrap(recovered), after; }
        return Refused, after;
      }
      if Live(Pending) !in files { return Refused, after; }
      var ready, pending := files[Live(Ready)].content, files[Live(Pending)].content;
      ghost var mid := files;
      if pending == IdleMark(ready.nonce, ready.active) {
        RestHasMain(files, fam, phase.active);
        assert files - {Live(Journal(ready.active))} == files;
        r := OpenReady(ready.active, next, fam);
        after :=
          if r.Opened? then Rest(next)
          else if AtRest(files, fam, ready.active) then Rest(ready.active)
          else Activation(ready.active, next);
      } else if pending.ActivateMark? && pending.nonce == ready.nonce {
        NoJournals(files, fam, pending.previous, pending.active);
        r := FinishActivation(pending.previous, pending.active, fam);
        after := if r == Crashed || r == Refused then phase else Rest(pending.active);
      } else {
        return Refused, after;
      }
      PhaseOf(files, fam, after);
      SameQuarantineFiled(mid, files, directories);
    }

    /** What the open database does to its own files: it writes the main file and makes or removes sidecars. */
    method WriteDatabase(health: Health, shm: Option<File>, wal: Option<File>, ghost fam: Family, ghost phase: Phase)
      returns (ghost fam': Family)
      requires Genuine(fam) && InPhase(files, fam, phase) && Filed(files, directories)
      modifies this`files
      ensures fam' == if phase.Rest? then Written(fam, health, shm, wal) else fam
      ensures !phase.Rest? ==> files == old(files)
      ensures phase.Rest? ==> (IsSound(fam'.main.content) <==> health == Intact)
      ensures Genuine(fam') && InPhase(files, fam', phase)
      ensures Filed(files, directories) && KeepsQuarantine(old(files), files)
    {
      hide InPhase, AtRest, Filed, KeepsQuarantine;
      KeepsQuarantineComposes(files, files, files);
      PhaseFacts(files, fam, phase);
      if phase.Rest? { RestHasMain(files, fam, phase.active); }
      fam' := fam;
      if Live(Ready) !in files || Live(Pending) !in files { return; }
      var ready := files[Live(Ready)].content;
      if files[Live(Pending)].content != IdleMark(ready.nonce, ready.active) { return; }
      if Live(Main(ready.active)) !in files { return; }
      ghost var before := files;
      WritesStayAtRest(files, fam, ready.active, health, shm, wal);
      files := Rewritten(files, ready.active, health, shm, wal);
      fam' := Written(fam, health, shm, wal);
      PhaseOf(files, fam', phase);
      SameQuarantineFiled(before, files, directories);
    }

    /**
     Any sequence of opens, quarantines and writes of the open database; each open and each
     quarantine has its own amount of power, each open a fresh name. Whatever was cut short,
     the family as last written is never torn apart. An open with enough power ends at rest
     with everything together, or with the whole family set aside in the one directory the
     first quarantine to move anything created; without a quarantine call the family is never
     set aside, and what an earlier quarantine holds is never touched.
     */
    method Survive(calls: seq<Call>, names: Files -> Nonce, ghost fam: Family, ghost phase: Phase)
      returns (r: Opening, ghost fam': Family, ghost after: Phase)
      requires Genuine(fam) && InPhase(files, fam, phase) && Filed(files, directories)
      requires forall f: Files :: Unused(f, names(f))
      modifies this
      ensures Genuine(fam') && InPhase(files, fam', after) && KeepsQuarantine(old(files), files)
      ensures forall p | InPhase(files, fam', p) :: p == after || (p.Departed? && after.Departed?)
      ensures WrittenBy(fam, calls, fam')
      ensures phase.Quarantining? || phase.Departed? ==>
        fam' == fam && after in {phase, Departed(phase.active, phase.counter)}
      ensures (phase.Rest? || phase.Activation?) && (forall c | c in calls :: !c.QuarantineCall?) ==>
        after.Rest? || after.Activation?
      ensures (phase.Rest? || phase.Activation?) && (after.Quarantining? || after.Departed?) ==>
        after.counter !in old(directories)
      ensures calls != [] && calls[|calls| - 1].OpenCall? && calls[|calls| - 1].power >= 6 ==>
        || (after.Rest? && r == if IsSound(fam'.main.content) then Opened(after.active) else Damaged)
        || (after.Departed? && r.Bootstrap?)
    {
      hide InPhase, Filed, Unused, KeepsQuarantine;
      KeepsQuarantineComposes(old(files), old(files), old(files));
      after, fam', r := phase, fam, Crashed;
      for i := 0 to |calls|
        invariant Genuine(fam') && InPhase(files, fam', after) && Filed(files, directories)
        invariant KeepsQuarantine(old(files), files) && old(directories) <= directories
        invariant WrittenBy(fam, calls[..i], fam')
        invariant phase.Quarantining? || phase.Departed? ==>
          fam' == fam && after in {phase, Departed(phase.active, phase.counter)}
        invariant (phase.Rest? || phase.Activation?) && (forall c | c in calls[..i] :: !c.QuarantineCall?) ==>
          after.Rest? || after.Activation?
        invariant (phase.Rest? || phase.Activation?) && (after.Quarantining? || after.Departed?) ==>
          after.counter !in old(directories)
        invariant i > 0 && calls[i - 1].OpenCall? && calls[i - 1].power >= 6 ==>
          || (after.Rest? && r == if IsSound(fam'.main.content) then Opened(after.active) else Damaged)
          || (after.Departed? && r.Bootstrap?)
      {
        ghost var before := files;
        match calls[i] {
          case OpenCall(budget) =>
            power := budget;
            r, after := Open(names(files), fam', after);
          case QuarantineCall(budget) =>
            power := budget;
            var s;
            s, after := QuarantineDatabase(fam', after);
          case WriteCall(health, shm, wal) =>
            fam' := WriteDatabase(health, shm, wal, fam', after);
        }
        KeepsQuarantineComposes(old(files), before, files);
        assert calls[..i + 1] == calls[..i] + [calls[i]] && calls[i] in calls[..i + 1];
        assert forall c | c in calls[..i] :: c in calls[..i + 1];
      }
      assert calls[..|calls|] == calls;
      forall p | InPhase(files, fam', p) ensures p == after || (p.Departed? && after.Departed?) {
        PhaseIsDetermined(files, fam', p, after);
      }
    }
  }

  /** The state of the main file: sound, damaged behind a readable header, or unreadable. */
  datatype Health = Intact | Corrupt | Illegible

  datatype Call =
    | OpenCall(power: nat)
    | QuarantineCall(power: nat)
    | WriteCall(health: Health, shm: Option<File>, wal: Option<File>)

  function MainContent(health: Health): Content {
    match health
    case Intact => Database(Matches, true)
    case Corrupt => Database(Matches, false)
    case Illegible => Database(Unreadable, false)
  }

  /** The family after the open database wrote: the same file, other contents, other sidecars. */
  function Written(fam: Family, health: Health, shm: Option<File>, wal: Option<File>): Family {
    fam.(main := File(fam.main.identity, MainContent(health)), shm := shm, wal := wal)
  }

  /** The family is the original or what one of the writes made of it. */
  predicate WrittenBy(fam: Family, calls: seq<Call>, fam': Family) {
    fam' == fam || exists c | c in calls :: c.WriteCall? && fam' == Written(fam, c.health, c.shm, c.wal)
  }

  function WithFile(files: Files, p: Path, f: Option<File>): Files {
    if f.Some? then files[p := f.value] else files - {p}
  }

  function Rewritten(files: Files, a: Nonce, health: Health, shm: Option<File>, wal: Option<File>): Files
    requires Live(Main(a)) in files
  {
    var main := File(files[Live(Main(a))].identity, MainContent(health));
    WithFile(WithFile(files[Live(Main(a)) := main], Live(Shm(a)), shm), Live(Wal(a)), wal)
  }

  lemma WritesStayAtRest(files: Files, fam: Family, a: Nonce, health: Health, shm: Option<File>, wal: Option<File>)
    requires Genuine(fam) && AtRest(files, fam, a)
    ensures Genuine(Written(fam, health, shm, wal)) && Live(Main(a)) in files
    ensures AtRest(Rewritten(files, a, health, shm, wal), Written(fam, health, shm, wal), a)
    ensures SameQuarantine(files, Rewritten(files, a, health, shm, wal))
  {
  }

  lemma KeepsQuarantineComposes(a: Files, b: Files, c: Files)
    ensures KeepsQuarantine(a, a)
    ensures KeepsQuarantine(a, b) && KeepsQuarantine(b, c) ==> KeepsQuarantine(a, c)
  {
  }

  ghost predicate SameMarkers(before: Files, after: Files) {
    forall p | p in {Live(Ready), Live(Pending)} ::
      (p in before <==> p in after) && (p in before ==> after[p] == before[p])
  }

  /** The quarantines hold exactly what they held before. */
  ghost predicate SameQuarantine(before: Files, after: Files) {
    forall p: Path | p.Quarantined? :: (p in before <==> p in after) && (p in before ==> after[p] == before[p])
  }

  ghost predicate Undisturbed(before: Files, after: Files) {
    SameMarkers(before, after) && SameQuarantine(before, after)
  }

  lemma UndisturbedComposes()
    ensures forall a, b, c :: Undisturbed(a, b) && Undisturbed(b, c) ==> Undisturbed(a, c)
    ensures forall a :: Undisturbed(a, a)
  {
  }

  // ---------------------------------------------------------------------------
  // Single moves of an activation
  // ---------------------------------------------------------------------------

  lemma IdentityOnTheWay(files: Files, fam: Family, prev: Nonce, next: Nonce)
    requires OnTheWay(files, fam, prev, next)
    ensures var held := if Live(Main(next)) in files then Live(Main(next)) else Live(Main(prev));
      held in files && files[held] == fam.main && Live(Identity) in files && files[Live(Identity)] == fam.identity
  {
  }

  lemma ShmOnTheWay(files: Files, fam: Family, prev: Nonce, next: Nonce)
    requires OnTheWay(files, fam, prev, next)
    ensures Undisturbed(files, files) && prev != next
    ensures Live(Shm(prev)) in files ==> Live(Shm(next)) !in files
    ensures Live(Shm(prev)) !in files ==> IsAt(files, fam.shm, Live(Shm(next)))
    ensures Live(Shm(prev)) in files ==>
      var f := Moved(files, Live(Shm(prev)), Live(Shm(next)));
      OnTheWay(f, fam, prev, next) && IsAt(f, fam.shm, Live(Shm(next))) && Undisturbed(files, f)
    ensures Live(Shm(prev)) in files ==> Live(Main(next)) !in files
  {
  }

  lemma WalOnTheWay(files: Files, fam: Family, prev: Nonce, next: Nonce)
    requires OnTheWay(files, fam, prev, next) && IsAt(files, fam.shm, Live(Shm(next)))
    ensures Undisturbed(files, files) && prev != next
    ensures Live(Wal(prev)) in files ==> Live(Wal(next)) !in files
    ensures Live(Wal(prev)) !in files ==> IsAt(files, fam.wal, Live(Wal(next)))
    ensures Live(Wal(prev)) in files ==>
      var f := Moved(files, Live(Wal(prev)), Live(Wal(next)));
      && OnTheWay(f, fam, prev, next) && IsAt(f, fam.shm, Live(Shm(next))) && IsAt(f, fam.wal, Live(Wal(next)))
      && Undisturbed(files, f)
    ensures Live(Wal(prev)) in files ==> Live(Main(next)) !in files
  {
  }

  lemma MainOnTheWay(files: Files, fam: Family, prev: Nonce, next: Nonce)
    requires OnTheWay(files, fam, prev, next)
    requires IsAt(files, fam.shm, Live(Shm(next))) && IsAt(files, fam.wal, Live(Wal(next)))
    ensures Undisturbed(files, files) && (Live(Main(prev)) in files) != (Live(Main(next)) in files)
    ensures Live(Main(prev)) in files ==>
      var f := Moved(files, Live(Main(prev)), Live(Main(next)));
      OnTheWay(f, fam, prev, next) && Live(Main(next)) in f && Undisturbed(files, f)
  {
  }

  // ---------------------------------------------------------------------------
  // Marker replacements
  // ---------------------------------------------------------------------------

  /** No family file, in place or quarantined, uses the name. */
  ghost predicate Unused(files: Files, next: Nonce) {
    && (forall m | Live(m) in files && IsFamilyMember(m) :: m.active != next)
    && NotQuarantined(files, next)
  }

  lemma RestHasMain(files: Files, fam: Family, a: Nonce)
    requires AtRest(files, fam, a)
    ensures Live(Main(a)) in files && files[Live(Main(a))] == fam.main
    ensures Live(Ready) in files && files[Live(Ready)].content == ReadyMark(fam.nonce, a) && Live(Pending) in files
    ensures Live(Proof) in files && files[Live(Proof)] == fam.proof && Live(Identity) in files
      && files[Live(Identity)] == fam.identity
    ensures Live(Journal(a)) !in files
  {
  }

  lemma ActivationStarted(files: Files, fam: Family, a: Nonce, next: Nonce, identity: nat)
    requires AtRest(files, fam, a) && Unused(files, next)
    ensures var f := files[Live(Pending) := File(identity, ActivateMark(fam.nonce, next, a))];
      Activating(f, fam, a, next) && SameQuarantine(files, f)
  {
    assert Live(Main(a)) in files;
  }

  lemma NoJournals(files: Files, fam: Family, prev: Nonce, next: Nonce)
    requires Activating(files, fam, prev, next)
    ensures !Journaled(files, prev) && !Journaled(files, next)
    ensures files - {Live(Journal(prev)), Live(Journal(next))} == files
  {
  }

  lemma MarkersName(files: Files, fam: Family, prev: Nonce, next: Nonce)
    requires Activating(files, fam, prev, next)
    ensures Live(Pending) in files && files[Live(Pending)].content == ActivateMark(fam.nonce, next, prev)
    ensures Live(Proof) in files && files[Live(Proof)] == fam.proof
  {
  }

  lemma MarkersKept(before: Files, after: Files, fam: Family, prev: Nonce, next: Nonce)
    requires Activating(before, fam, prev, next) && OnTheWay(after, fam, prev, next) && Undisturbed(before, after)
    requires Live(Main(next)) in before ==> Live(Main(next)) in after
    ensures Activating(after, fam, prev, next) && SameQuarantine(before, after)
  {
    hide OnTheWay;
    assert Live(Ready) in {Live(Ready), Live(Pending)} && Live(Pending) in {Live(Ready), Live(Pending)};
  }

  lemma ReadyPublished(files: Files, fam: Family, prev: Nonce, next: Nonce, identity: nat)
    requires Activating(files, fam, prev, next) && Live(Main(next)) in files
    ensures var f := files[Live(Ready) := File(identity, ReadyMark(fam.nonce, next))];
      && Activating(f, fam, prev, next) && Live(Main(next)) in f && SameQuarantine(files, f)
      && Says(f, Live(Ready), ReadyMark(fam.nonce, next))
  {
  }

  lemma IdlePublished(files: Files, fam: Family, prev: Nonce, next: Nonce, identity: nat)
    requires Activating(files, fam, prev, next) && Live(Main(next)) in files
    requires Says(files, Live(Ready), ReadyMark(fam.nonce, next))
    ensures var f := files[Live(Pending) := File(identity, IdleMark(fam.nonce, next))];
      AtRest(f, fam, next) && SameQuarantine(files, f)
  {
  }

  // ---------------------------------------------------------------------------
  // Single moves of a quarantine
  // ---------------------------------------------------------------------------

  lemma MainLeaves(files: Files, fam: Family, a: Nonce, q: nat, directories: set<nat>)
    requires AtRest(files, fam, a) && Filed(files, directories) && q !in directories && q < QUARANTINE_LIMIT
    ensures Live(Main(a)) in files && Quarantined(q, Main(a)) !in files
    ensures var f := Moved(files, Live(Main(a)), Quarantined(q, Main(a)));
      Leaving(f, fam, a, q) && KeepsQuarantine(files, f) && Filed(f, directories + {q})
  {
    assert forall m :: Quarantined(q, m) !in files;
  }

  lemma ShmLeaves(files: Files, fam: Family, a: Nonce, q: nat, m: Member)
    requires Leaving(files, fam, a, q) && m == Shm(a) && Live(m) in files
    ensures Quarantined(q, m) !in files && Leaving(Moved(files, Live(m), Quarantined(q, m)), fam, a, q)
  {
  }

  lemma WalLeaves(files: Files, fam: Family, a: Nonce, q: nat, m: Member)
    requires Leaving(files, fam, a, q) && m == Wal(a) && Live(m) in files
    ensures Quarantined(q, m) !in files && Leaving(Moved(files, Live(m), Quarantined(q, m)), fam, a, q)
  {
  }

  lemma IdentityLeaves(files: Files, fam: Family, a: Nonce, q: nat, m: Member)
    requires Leaving(files, fam, a, q) && m == Identity && Live(m) in files
    ensures Quarantined(q, m) !in files && Leaving(Moved(files, Live(m), Quarantined(q, m)), fam, a, q)
  {
  }

  lemma ProofLeaves(files: Files, fam: Family, a: Nonce, q: nat, m: Member)
    requires Leaving(files, fam, a, q) && m == Proof && Live(m) in files
    ensures Quarantined(q, m) !in files && Leaving(Moved(files, Live(m), Quarantined(q, m)), fam, a, q)
  {
  }

  lemma PendingLeaves(files: Files, fam: Family, a: Nonce, q: nat, m: Member)
    requires Leaving(files, fam, a, q) && m == Pending && Live(m) in files
    ensures Quarantined(q, m) !in files && Leaving(Moved(files, Live(m), Quarantined(q, m)), fam, a, q)
  {
  }

  lemma MemberLeaves(files: Files, fam: Family, a: Nonce, q: nat, m: Member, directories: set<nat>)
    requires Leaving(files, fam, a, q) && m in {Shm(a), Wal(a), Identity, Proof, Pending}
    ensures m in {Identity, Proof, Pending} && Live(m) !in files ==> Quarantined(q, m) in files
    ensures Live(m) in files ==> Quarantined(q, m) !in files
    ensures Live(m) in files ==>
      var f := Moved(files, Live(m), Quarantined(q, m));
      Leaving(f, fam, a, q) && KeepsQuarantine(files, f) && (Filed(files, directories) ==> Filed(f, directories))
  {
    assert Quarantined(q, Main(a)) in files;
    if Live(m) in files {
      hide Leaving;
      match m
      case Shm(_) => ShmLeaves(files, fam, a, q, m);
      case Wal(_) => WalLeaves(files, fam, a, q, m);
      case Identity => IdentityLeaves(files, fam, a, q, m);
      case Proof => ProofLeaves(files, fam, a, q, m);
      case _ => PendingLeaves(files, fam, a, q, m);
    }
  }

  lemma ReadyLeavesLast(files: Files, fam: Family, a: Nonce, q: nat, directories: set<nat>)
    requires Leaving(files, fam, a, q)
    requires Live(Shm(a)) !in files && Live(Wal(a)) !in files && Live(Identity) !in files && Live(Proof) !in files
      && Live(Pending) !in files
    ensures Live(Ready) in files && Quarantined(q, Ready) !in files
    ensures var f := Moved(files, Live(Ready), Quarantined(q, Ready));
      Gone(f, fam, a, q) && KeepsQuarantine(files, f) && (Filed(files, directories) ==> Filed(f, directories))
  {
    assert Quarantined(q, Main(a)) in files;
  }

  lemma FiledWider(files: Files, narrow: set<nat>, wide: set<nat>)
    requires Filed(files, narrow) && narrow <= wide
    ensures Filed(files, wide)
  {
  }

  lemma PhaseAfterQuarantine(files: Files, fam: Family, a: Nonce, q: nat)
    ensures Leaving(files, fam, a, q) ==> InPhase(files, fam, Quarantining(a, q))
    ensures Gone(files, fam, a, q) ==> InPhase(files, fam, Departed(a, q))
  {
  }

  /** What the markers say in each phase. */
  lemma PhaseFacts(files: Files, fam: Family, phase: Phase)
    requires InPhase(files, fam, phase)
    ensures phase.Rest? ==>
      && AtRest(files, fam, phase.active)
      && Says(files, Live(Ready), ReadyMark(fam.nonce, phase.active))
      && Says(files, Live(Pending), IdleMark(fam.nonce, phase.active))
    ensures phase.Activation? ==>
      && Activating(files, fam, phase.previous, phase.next)
      && Says(files, Live(Pending), ActivateMark(fam.nonce, phase.next, phase.previous))
      && Live(Ready) in files
      && files[Live(Ready)].content in {ReadyMark(fam.nonce, phase.previous), ReadyMark(fam.nonce, phase.next)}
    ensures phase.Quarantining? ==>
      && Leaving(files, fam, phase.active, phase.counter)
      && Says(files, Live(Ready), ReadyMark(fam.nonce, phase.active)) && Live(Main(phase.active)) !in files
    ensures phase.Departed? ==> Live(Ready) !in files && Live(Pending) !in files
  {
  }

  /** Resuming looks for the right directory and passes its checks. */
  lemma ResumeFacts(files: Files, directories: set<nat>, fam: Family, phase: Phase)
    requires InPhase(files, fam, phase) && Filed(files, directories)
    ensures phase.Rest? ==>
      Says(files, Live(Ready), ReadyMark(fam.nonce, phase.active)) && NotQuarantined(files, phase.active)
    ensures phase.Activation? ==> NotQuarantined(files, phase.previous) && NotQuarantined(files, phase.next)
    ensures phase.Quarantining? ==>
      && phase.counter < QUARANTINE_LIMIT && phase.counter in directories
      && Quarantined(phase.counter, Main(phase.active)) in files
      && (forall c: nat | c != phase.counter :: Quarantined(c, Main(phase.active)) !in files)
      && Recognisable(files, fam, phase.active, phase.counter)
  {
  }

  predicate Recognisable(files: Files, fam: Family, a: Nonce, q: nat) {
    var identity, proof := Wherever(files, q, Identity), Wherever(files, q, Proof);
    var pending := Wherever(files, q, Pending);
    && Quarantined(q, Main(a)) in files && files[Quarantined(q, Main(a))] == fam.main
    && identity in files && files[identity] == fam.identity
    && proof in files && files[proof] == fam.proof
    && pending in files && files[pending].content == IdleMark(fam.nonce, a)
  }

  lemma SameQuarantineFiled(before: Files, after: Files, directories: set<nat>)
    requires SameQuarantine(before, after)
    ensures KeepsQuarantine(before, after) && (Filed(before, directories) ==> Filed(after, directories))
  {
  }

  lemma PhaseOf(files: Files, fam: Family, p: Phase)
    ensures p.Rest? && AtRest(files, fam, p.active) ==> InPhase(files, fam, p)
    ensures p.Activation? && Activating(files, fam, p.previous, p.next) ==> InPhase(files, fam, p)
  {
  }
}
