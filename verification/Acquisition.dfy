/**
  Taking a planned snapshot, and what the digests in a chain of manifests mean
  (Sources/GreenBubblesCore/ReadOnlySnapshot.swift, `createSnapshot` and
  `snapshotAttempt`; Sources/GreenBubblesCLI/main.swift plans and then creates).
 */
module Acquisition {
  import opened Wrappers
  import opened Sequences
  import opened Volume
  import opened Snapshot
  import opened Planner

  type Hash = seq<Byte> -> Digest

  // ----- what a recorded digest means -----

  /** Some file once had this fingerprint and content with this digest. */
  ghost predicate WasContent(trace: Trace, hash: Hash, fingerprint: Fingerprint, digest: Digest) {
    exists k, file ::
      Holds(trace, k, fingerprint.Id(), file) && file.fingerprint == fingerprint && hash(file.content) == digest
  }

  /** Whenever the file has this fingerprint, hashing it again gives this digest. */
  ghost predicate Truthful(trace: Trace, hash: Hash, fingerprint: Fingerprint, digest: Digest) {
    forall k, file :: Holds(trace, k, fingerprint.Id(), file) && file.fingerprint == fingerprint ==>
      hash(file.content) == digest
  }

  lemma OnceIsAlways(trace: Trace, hash: Hash, fingerprint: Fingerprint, digest: Digest)
    requires Honest(trace) && WasContent(trace, hash, fingerprint, digest)
    ensures Truthful(trace, hash, fingerprint, digest)
  {
    var k, file :| Holds(trace, k, fingerprint.Id(), file) && file.fingerprint == fingerprint
      && hash(file.content) == digest;
    forall j, other | Holds(trace, j, fingerprint.Id(), other) && other.fingerprint == fingerprint
      ensures hash(other.content) == digest
    {
      if j <= k {
        FileStable(trace, j, k, fingerprint.Id(), other, file, j);
      } else {
        FileStable(trace, k, j, fingerprint.Id(), file, other, k);
      }
    }
  }

  ghost predicate TruthfulFile(trace: Trace, hash: Hash, file: FileInventory) {
    file.digest.Some? ==> Truthful(trace, hash, file.fingerprint, file.digest.value)
  }

  ghost predicate TruthfulInventory(trace: Trace, hash: Hash, inventory: Inventory) {
    forall id, role :: id in inventory && role in inventory[id].files ==>
      TruthfulFile(trace, hash, inventory[id].files[role])
  }

  // ----- entries -----

  function EntryFor(hash: Hash, capture: Capture): Entry {
    Entry(capture.file.setID, capture.file.logicalPath, capture.file.role, capture.copy.fingerprint,
          hash(capture.copy.content))
  }

  method DigestEntries(captures: seq<Capture>, hash: Hash) returns (r: Result<seq<Entry>, IOError>)
    ensures r.Ok? ==> |r.value| == |captures| && forall i :: 0 <= i < |captures| ==>
      r.value[i] == EntryFor(hash, captures[i])
    ensures r.Err? <==> exists c :: c in captures && |c.copy.content| != c.copy.fingerprint.byteCount
  {
    var entries: seq<Entry> := [];
    for i := 0 to |captures|
      invariant |entries| == i && forall j :: 0 <= j < i ==>
        entries[j] == EntryFor(hash, captures[j])
          && |captures[j].copy.content| == captures[j].copy.fingerprint.byteCount
    {
      assert captures[i] in captures;
      if |captures[i].copy.content| != captures[i].copy.fingerprint.byteCount {
        return Err(SourceChanged(captures[i].file.source));
      }
      entries := entries + [EntryFor(hash, captures[i])];
    }
    return Ok(entries);
  }

  // ----- one attempt -----

  /** The set was captured at one instant within (a, b], and those captures are on record. */
  ghost predicate SetAcquired(trace: Trace, hash: Hash, a: nat, b: nat, set_: DatabaseSet, entries: seq<Entry>) {
    exists captures, settled: nat, opening: nat, copied: nat ::
      a < settled && copied <= b && Captured(trace, set_, captures, settled, opening, copied)
      && EntriesAreOf(hash, set_.database, captures, entries)
  }

  /** The entries of a set are those of its captures. */
  ghost predicate EntriesAreOf(hash: Hash, id: SetID, captures: seq<Capture>, entries: seq<Entry>) {
    && (forall c :: c in captures ==> EntryFor(hash, c) in entries)
    && forall e :: e in entries && e.sourceSetID == id ==> exists c :: c in captures && e == EntryFor(hash, c)
  }

  ghost predicate AllCaptured(trace: Trace, hash: Hash, a: nat, b: nat, sets: seq<DatabaseSet>,
                              captures: seq<Capture>) {
    (forall s :: s in sets ==> CapturedIn(trace, a, b, s, captures))
    && forall c :: c in captures ==>
         c.file.setID in DatabasesOf(sets) && WasContent(trace, hash, c.copy.fingerprint, hash(c.copy.content))
         && |c.copy.content| == c.copy.fingerprint.byteCount
  }

  ghost predicate CapturedIn(trace: Trace, a: nat, b: nat, set_: DatabaseSet, captures: seq<Capture>) {
    exists own, settled: nat, opening: nat, copied: nat ::
      a < settled && copied <= b && Captured(trace, set_, own, settled, opening, copied)
      && OwnCaptures(own, captures, set_.database)
  }

  ghost predicate OwnCaptures(own: seq<Capture>, captures: seq<Capture>, id: SetID) {
    (forall c :: c in own ==> c in captures) && forall c :: c in captures && c.file.setID == id ==> c in own
  }

  lemma CapturedOwnSet(trace: Trace, set_: DatabaseSet, captures: seq<Capture>, settled: nat, opening: nat,
                       copied: nat, c: Capture)
    requires Captured(trace, set_, captures, settled, opening, copied) && c in captures
    ensures c.file.setID == set_.database
  {
    assert AreFilesOf(captures, set_);
  }

  lemma CapturedWasContent(trace: Trace, hash: Hash, set_: DatabaseSet, captures: seq<Capture>, settled: nat,
                           opening: nat, copied: nat, c: Capture)
    requires Honest(trace) && Captured(trace, set_, captures, settled, opening, copied) && c in captures
    ensures WasContent(trace, hash, c.copy.fingerprint, hash(c.copy.content))
    ensures |c.copy.content| == c.copy.fingerprint.byteCount
  {
    assert HeldTogether(trace, settled, captures);
    var i :| 0 <= i < |captures| && captures[i] == c;
    assert Shows(trace, settled, c.file.source, c.AsFile());
    assert Labelled(trace[settled]);
    assert Holds(trace, settled, c.copy.fingerprint.Id(), c.AsFile());
  }

  /** What was captured before is of other sets than what is captured now. */
  lemma OwnAreOwn(trace: Trace, sets: seq<DatabaseSet>, i: nat, captures: seq<Capture>, own: seq<Capture>,
                  settled: nat, opening: nat, copied: nat)
    requires DistinctSets(sets) && i < |sets| && Captured(trace, sets[i], own, settled, opening, copied)
    requires forall c :: c in captures ==> c.file.setID in DatabasesOf(sets[..i])
    ensures OwnCaptures(own, captures + own, sets[i].database)
    ensures forall s, c :: s in sets[..i] && c in own ==> c.file.setID != s.database
  {
    assert AreFilesOf(own, sets[i]);
    forall s | s in sets[..i]
      ensures s.database != sets[i].database
    {
      var j :| 0 <= j < i && sets[..i][j] == s;
      assert sets[j] == s;
    }
  }

  lemma EarlierStay(trace: Trace, a: nat, b: nat, c: nat, s: DatabaseSet, captures: seq<Capture>, more: seq<Capture>)
    requires CapturedIn(trace, a, b, s, captures) && b <= c && forall d :: d in more ==> d.file.setID != s.database
    ensures CapturedIn(trace, a, c, s, captures + more)
  {
    var own: seq<Capture>, settled: nat, opening: nat, copied: nat :|
      a < settled && copied <= b && Captured(trace, s, own, settled, opening, copied)
      && OwnCaptures(own, captures, s.database);
    assert OwnCaptures(own, captures + more, s.database);
  }

  lemma SetCalmWithin(trace: Trace, a: nat, b: nat, c: nat, d: nat, s: DatabaseSet)
    requires a <= b && c <= d && SetCalm(trace, a, d, s)
    ensures SetCalm(trace, b, c, s)
  {
    CalmWithin(trace, a, b, c, d, s.database);
    if s.writeAheadLog.Some? {
      CalmWithin(trace, a, b, c, d, s.writeAheadLog.value);
    }
    if s.sharedMemory.Some? {
      CalmWithin(trace, a, b, c, d, s.sharedMemory.value);
    }
  }

  method CaptureSets(machine: Machine, sets: seq<DatabaseSet>, allowClone: bool, ghost hash: Hash)
    returns (r: Result<seq<Capture>, IOError>)
    requires Honest(machine.trace) && DistinctSets(sets)
    modifies machine`now
    ensures old(machine.now) <= machine.now
    ensures r.Ok? ==> AllCaptured(machine.trace, hash, old(machine.now), machine.now, sets, r.value)
    ensures r.Err? ==> exists s :: s in sets && !SetCalm(machine.trace, old(machine.now), machine.now, s)
  {
    var captures: seq<Capture> := [];
    for i := 0 to |sets|
      invariant old(machine.now) <= machine.now
      invariant AllCaptured(machine.trace, hash, old(machine.now), machine.now, sets[..i], captures)
    {
      ghost var before := machine.now;
      var own, settled, opening, copied := CaptureSet(machine, sets[i], allowClone);
      if own.Err? {
        if SetCalm(machine.trace, old(machine.now), machine.now, sets[i]) {
          SetCalmWithin(machine.trace, old(machine.now), before, machine.now, machine.now, sets[i]);
        }
        assert sets[i] in sets;
        return Err(own.error);
      }
      CapturesExtend(machine.trace, hash, old(machine.now), before, machine.now, sets, i, captures, own.value, settled,
                     opening, copied);
      captures := captures + own.value;
    }
    assert sets[..|sets|] == sets;
    return Ok(captures);
  }

  lemma CapturesExtend(trace: Trace, hash: Hash, a: nat, b: nat, c: nat, sets: seq<DatabaseSet>, i: nat,
                       captures: seq<Capture>,
                       own: seq<Capture>, settled: nat, opening: nat, copied: nat)
    requires Honest(trace) && DistinctSets(sets) && i < |sets| && a <= b <= c && b < settled && copied <= c
    requires AllCaptured(trace, hash, a, b, sets[..i], captures)
    requires Captured(trace, sets[i], own, settled, opening, copied)
    ensures AllCaptured(trace, hash, a, c, sets[..i + 1], captures + own)
  {
    assert sets[..i + 1] == sets[..i] + [sets[i]];
    OwnAreOwn(trace, sets, i, captures, own, settled, opening, copied);
    forall s | s in sets[..i]
      ensures CapturedIn(trace, a, c, s, captures + own)
    {
      EarlierStay(trace, a, b, c, s, captures, own);
    }
    assert CapturedIn(trace, a, c, sets[i], captures + own) by {
      assert Captured(trace, sets[i], own, settled, opening, copied)
        && OwnCaptures(own, captures + own, sets[i].database);
    }
    forall d | d in captures + own
      ensures d.file.setID in DatabasesOf(sets[..i + 1])
      ensures WasContent(trace, hash, d.copy.fingerprint, hash(d.copy.content))
      ensures |d.copy.content| == d.copy.fingerprint.byteCount
    {
      DatabasesSnoc(sets, i);
      if d in own {
        CapturedWasContent(trace, hash, sets[i], own, settled, opening, copied, d);
        CapturedOwnSet(trace, sets[i], own, settled, opening, copied, d);
      }
    }
  }

  /** Every file of the inventory has a digest: of captured content, or carried from `earlier` unchanged. */
  ghost predicate Documented(trace: Trace, hash: Hash, earlier: Inventory, inventory: Inventory) {
    forall id, role :: id in inventory && role in inventory[id].files ==>
      FileDocumented(trace, hash, earlier, id, role, inventory[id].files[role])
  }

  ghost predicate FileDocumented(trace: Trace, hash: Hash, earlier: Inventory, id: SetID, role: Role,
                                 file: FileInventory) {
    file.digest.Some?
    && (WasContent(trace, hash, file.fingerprint, file.digest.value)
        || (id in earlier && role in earlier[id].files && earlier[id].files[role] == file))
  }

  /** Instants of one attempt: at its start, after the first verification, after the last copy, at its end. */
  datatype Attempt = Attempt(started: nat, verified: nat, copied: nat, ended: nat)

  ghost predicate ShownThroughout(trace: Trace, a: nat, b: nat, path: Path, file: File) {
    forall k :: a <= k <= b ==> Shows(trace, k, path, file)
  }

  /** Every file left unread was the planned one at all instants from `a` to `b`. */
  ghost predicate UnreadHeld(trace: Trace, a: nat, b: nat, plan: Plan) {
    forall id, role :: LeftUnread(plan, id, role) ==>
      HeldThroughout(trace, a, b, PathOf(id, role), plan.evidence.sourceSets[id].files[role].fingerprint)
  }

  ghost predicate HeldThroughout(trace: Trace, a: nat, b: nat, path: Path, fingerprint: Fingerprint) {
    exists file: File :: file.fingerprint == fingerprint && file.regular && ShownThroughout(trace, a, b, path, file)
  }

  /** What a finished attempt guarantees about its manifest. */
  ghost predicate Acquired(trace: Trace, hash: Hash, at: Attempt, plan: Plan, manifest: Manifest) {
    && at.started <= at.verified <= at.copied <= at.ended
    && manifest.accountBinding == Some(plan.accountBinding)
    && manifest.acquisition == Some(plan.evidence.(sourceSets := FinalizedSets(plan, manifest.entries)))
    && StillPlanned(trace, at.started, at.verified, plan) && StillPlanned(trace, at.copied, at.ended, plan)
    && (forall s :: s in plan.selectedSets ==> SetAcquired(trace, hash, at.verified, at.copied, s, manifest.entries))
    && (forall e :: e in manifest.entries ==> e.sourceSetID in SelectedIDs(plan.evidence))
    && UnreadHeld(trace, at.verified, at.copied, plan)
    && Documented(trace, hash, plan.evidence.sourceSets, FinalizedSets(plan, manifest.entries))
  }

  predicate Lists(s: DatabaseSet, role: Role) {
    role == Database || (role == WriteAheadLog && s.writeAheadLog.Some?)
    || (role == SharedMemory && s.sharedMemory.Some?)
  }

  /** The plan carries no digest for the file, and no set that is read again lists it. */
  ghost predicate Uncovered(plan: Plan, id: SetID, role: Role) {
    id in plan.evidence.sourceSets && role in plan.evidence.sourceSets[id].files
    && plan.evidence.sourceSets[id].files[role].digest.None?
    && forall s :: s in plan.selectedSets && s.database == id ==> !Lists(s, role)
  }

  /** Throughout (a, b] calls are carried out, the plan stands, and nothing happens to what it reads. */
  ghost predicate NothingHappens(trace: Trace, a: nat, b: nat, plan: Plan) {
    !Broken(trace, a, b) && PlanStands(trace, a, b, plan)
    && forall s :: s in plan.selectedSets ==> SetCalm(trace, a, b, s)
  }

  /** Why an attempt can fail: something happened meanwhile, or the plan was not enough. */
  ghost predicate Hindered(trace: Trace, a: nat, b: nat, plan: Plan) {
    NothingHappens(trace, a, b, plan) ==> exists id, role :: Uncovered(plan, id, role)
  }

  lemma StandsWithin(trace: Trace, a: nat, b: nat, c: nat, d: nat, plan: Plan)
    requires a <= b && c <= d && PlanStands(trace, a, d, plan)
    ensures PlanStands(trace, b, c, plan)
  {
    forall id, role | id in plan.evidence.sourceSets
      ensures FileStands(trace, b, c, plan, id, role)
    {
      assert FileStands(trace, a, d, plan, id, role);
      var path, files := PathOf(id, role), plan.evidence.sourceSets[id].files;
      if role in files && id in SelectedIDs(plan.evidence) {
        CalmWithin(trace, a, b, c, d, path);
      } else if role in files {
        var file :| Calm(trace, a, d, path, file) && file.fingerprint == files[role].fingerprint;
        assert Calm(trace, b, c, path, file);
      }
    }
  }

  lemma NothingWithin(trace: Trace, a: nat, b: nat, c: nat, d: nat, plan: Plan)
    requires a <= b && c <= d && NothingHappens(trace, a, d, plan)
    ensures NothingHappens(trace, b, c, plan)
  {
    StandsWithin(trace, a, b, c, d, plan);
    forall s | s in plan.selectedSets
      ensures SetCalm(trace, b, c, s)
    {
      SetCalmWithin(trace, a, b, c, d, s);
    }
  }

  lemma HinderedLonger(trace: Trace, a: nat, b: nat, c: nat, d: nat, plan: Plan)
    requires a <= b && c <= d && Hindered(trace, b, c, plan)
    ensures Hindered(trace, a, d, plan)
  {
    if NothingHappens(trace, a, d, plan) {
      NothingWithin(trace, a, b, c, d, plan);
    }
  }

  lemma CallFailed(trace: Trace, a: nat, b: nat, plan: Plan)
    requires a < b && !Working(trace, b)
    ensures Hindered(trace, a, b, plan)
  {
  }

  lemma VerifyFailed(trace: Trace, a: nat, b: nat, c: nat, plan: Plan)
    requires a <= b && !PlanStands(trace, b, c, plan)
    ensures Hindered(trace, a, c, plan)
  {
    if PlanStands(trace, a, c, plan) {
      StandsWithin(trace, a, b, c, c, plan);
    }
  }

  lemma CaptureFailed(trace: Trace, a: nat, b: nat, c: nat, plan: Plan)
    requires a <= b && exists s :: s in plan.selectedSets && !SetCalm(trace, b, c, s)
    ensures Hindered(trace, a, c, plan)
  {
    var s :| s in plan.selectedSets && !SetCalm(trace, b, c, s);
    if SetCalm(trace, a, c, s) {
      SetCalmWithin(trace, a, b, c, c, s);
    }
  }

  /** A file that stays without a digest was not covered by the plan. */
  lemma MissingIsUncovered(trace: Trace, hash: Hash, b: nat, c: nat, plan: Plan, captures: seq<Capture>,
                           entries: seq<Entry>)
    requires PlanCovers(plan) && AllCaptured(trace, hash, b, c, plan.selectedSets, captures)
    requires |entries| == |captures|
    requires forall i :: 0 <= i < |captures| ==> entries[i] == EntryFor(hash, captures[i])
    requires FinalizedEvidence(plan, entries).Err?
    ensures exists id, role :: Uncovered(plan, id, role)
  {
    FinalizedMeans(plan, entries);
    var id, role :| Undocumented(plan, entries, id, role);
    forall s | s in plan.selectedSets && s.database == id
      ensures !Lists(s, role)
    {
      assert CapturedIn(trace, b, c, s, captures);
      if Lists(s, role) {
        ListedHasEntry(trace, hash, b, c, s, captures, entries, role);
      }
    }
    assert Uncovered(plan, id, role);
  }

  lemma ListedHasEntry(trace: Trace, hash: Hash, b: nat, c: nat, s: DatabaseSet, captures: seq<Capture>,
                       entries: seq<Entry>, role: Role)
    requires CapturedIn(trace, b, c, s, captures) && Lists(s, role) && |entries| == |captures|
    requires forall i :: 0 <= i < |captures| ==> entries[i] == EntryFor(hash, captures[i])
    ensures exists e :: e in entries && EntryIsFor(e, s.database, role)
  {
    var own: seq<Capture>, settled: nat, opening: nat, copied: nat :|
      b < settled && copied <= c && Captured(trace, s, own, settled, opening, copied)
      && OwnCaptures(own, captures, s.database);
    assert AreFilesOf(own, s);
    var source: Path, logicalPath: string :| OneFileOf(own, role, source, logicalPath);
    var i :| 0 <= i < |own| && own[i].file.role == role;
    assert own[i] in own && own[i] in captures;
    var j :| 0 <= j < |captures| && captures[j] == own[i];
    assert entries[j] in entries && EntryIsFor(entries[j], s.database, role);
  }

  datatype SnapshotFailure = Planning(planner: PlannerError) | Capturing(io: IOError)

  /** In a directory of its own, verify, copy, verify again: the captured sets and those left unread belong together. */
  method SnapshotAttempt(machine: Machine, plan: Plan, hash: Hash, allowClone: bool, createdAt: real)
    returns (r: Result<Manifest, SnapshotFailure>, ghost at: Attempt)
    requires Honest(machine.trace) && PlanCovers(plan)
    modifies machine`now, machine`directories
    ensures old(machine.now) <= machine.now && machine.directories == old(machine.directories) + 1
    ensures r.Ok? ==>
      old(machine.now) <= at.started && at.ended == machine.now && Acquired(machine.trace, hash, at, plan, r.value)
    ensures r.Err? ==> Hindered(machine.trace, old(machine.now), machine.now, plan)
  {
    ghost var start := machine.now;
    at := Attempt(0, 0, 0, 0);
    var directory := machine.MakeDirectory();
    if directory.Err? {
      CallFailed(machine.trace, start, machine.now, plan);
      return Err(Capturing(directory.error)), at;
    }
    at := at.(started := machine.now);
    var verified := VerifyForSnapshot(machine, plan);
    if verified.Err? {
      VerifyFailed(machine.trace, start, at.started, machine.now, plan);
      return Err(Planning(verified.error)), at;
    }
    at := at.(verified := machine.now);
    SelectIsDistinct(plan.allSets, SelectedIDs(plan.evidence));
    assert machine.directories == old(machine.directories) + 1;
    var captures := CaptureSets(machine, plan.selectedSets, allowClone, hash);
    assert machine.directories == old(machine.directories) + 1;
    if captures.Err? {
      CaptureFailed(machine.trace, start, at.verified, machine.now, plan);
      return Err(Capturing(captures.error)), at;
    }
    at := at.(copied := machine.now);
    verified := VerifyForSnapshot(machine, plan);
    if verified.Err? {
      VerifyFailed(machine.trace, start, at.copied, machine.now, plan);
      return Err(Planning(verified.error)), at;
    }
    at := at.(ended := machine.now);
    r := FinishAttempt(plan, captures.value, hash, createdAt, machine.trace, at);
  }

  /** Records what was captured beside what the plan carries. */
  method FinishAttempt(plan: Plan, captures: seq<Capture>, hash: Hash, createdAt: real, ghost trace: Trace,
                       ghost at: Attempt)
    returns (r: Result<Manifest, SnapshotFailure>)
    requires Honest(trace) && PlanCovers(plan) && at.started <= at.verified <= at.copied <= at.ended
    requires AllCaptured(trace, hash, at.verified, at.copied, plan.selectedSets, captures)
    requires StillPlanned(trace, at.started, at.verified, plan) && StillPlanned(trace, at.copied, at.ended, plan)
    ensures r.Ok? ==> Acquired(trace, hash, at, plan, r.value)
    ensures r.Err? ==> exists id, role :: Uncovered(plan, id, role)
  {
    var entries := DigestEntries(captures, hash);
    match entries {
      case Err(e) => return Err(Capturing(e));
      case Ok(_) =>
    }
    var evidence := FinalizedEvidence(plan, entries.value);
    if evidence.Err? {
      MissingIsUncovered(trace, hash, at.verified, at.copied, plan, captures, entries.value);
      return Err(Planning(evidence.error));
    }
    var manifest := Manifest(createdAt, Some(plan.accountBinding), Some(evidence.value), entries.value);
    UnreadStoodStill(trace, at, plan);
    AttemptAcquires(trace, hash, at, plan, captures, manifest);
    return Ok(manifest);
  }

  /** Seen as planned before the copying and after it, a file left unread was the same all the while. */
  lemma UnreadStoodStill(trace: Trace, at: Attempt, plan: Plan)
    requires Honest(trace) && at.verified <= at.copied
    requires StillPlanned(trace, at.started, at.verified, plan) && StillPlanned(trace, at.copied, at.ended, plan)
    ensures UnreadHeld(trace, at.verified, at.copied, plan)
  {
    forall id, role | LeftUnread(plan, id, role)
      ensures HeldThroughout(trace, at.verified, at.copied, PathOf(id, role),
                             plan.evidence.sourceSets[id].files[role].fingerprint)
    {
      SeenTwiceHeld(trace, at, PathOf(id, role), plan.evidence.sourceSets[id].files[role].fingerprint);
    }
  }

  lemma SeenTwiceHeld(trace: Trace, at: Attempt, path: Path, fingerprint: Fingerprint)
    requires Honest(trace)
    requires SeenBetween(trace, at.started, at.verified, path, fingerprint)
      && SeenBetween(trace, at.copied, at.ended, path, fingerprint)
    ensures HeldThroughout(trace, at.verified, at.copied, path, fingerprint)
  {
    var before, file :| at.started < before <= at.verified && Shows(trace, before, path, file)
      && file.fingerprint == fingerprint && file.regular;
    var after, other :| at.copied < after <= at.ended && Shows(trace, after, path, other)
      && other.fingerprint == fingerprint;
    forall k | at.verified <= k <= at.copied
      ensures Shows(trace, k, path, file)
    {
      NameStable(trace, before, after, path, file, other, k);
    }
    assert ShownThroughout(trace, at.verified, at.copied, path, file);
  }

  lemma AttemptAcquires(trace: Trace, hash: Hash, at: Attempt, plan: Plan, captures: seq<Capture>, manifest: Manifest)
    requires PlanCovers(plan) && at.started <= at.verified <= at.copied <= at.ended
    requires AllCaptured(trace, hash, at.verified, at.copied, plan.selectedSets, captures)
    requires StillPlanned(trace, at.started, at.verified, plan) && StillPlanned(trace, at.copied, at.ended, plan)
    requires UnreadHeld(trace, at.verified, at.copied, plan)
    requires |manifest.entries| == |captures|
    requires forall i :: 0 <= i < |captures| ==> manifest.entries[i] == EntryFor(hash, captures[i])
    requires AllDigestsKnown(FinalizedSets(plan, manifest.entries))
    requires manifest.accountBinding == Some(plan.accountBinding)
    requires manifest.acquisition == Some(plan.evidence.(sourceSets := FinalizedSets(plan, manifest.entries)))
    ensures Acquired(trace, hash, at, plan, manifest)
  {
    forall s | s in plan.selectedSets
      ensures SetAcquired(trace, hash, at.verified, at.copied, s, manifest.entries)
    {
      assert CapturedIn(trace, at.verified, at.copied, s, captures);
      EntriesOfCaptured(trace, hash, at.verified, at.copied, s, captures, manifest.entries);
    }
    forall e | e in manifest.entries
      ensures e.sourceSetID in SelectedIDs(plan.evidence)
    {
      var i :| 0 <= i < |captures| && manifest.entries[i] == e;
      assert captures[i] in captures;
    }
    EntriesDocument(trace, hash, plan, captures, manifest.entries);
  }

  lemma EntriesOfCaptured(trace: Trace, hash: Hash, b: nat, c: nat, s: DatabaseSet, captures: seq<Capture>,
                          entries: seq<Entry>)
    requires CapturedIn(trace, b, c, s, captures) && |entries| == |captures|
    requires forall i :: 0 <= i < |captures| ==> entries[i] == EntryFor(hash, captures[i])
    ensures SetAcquired(trace, hash, b, c, s, entries)
  {
    var own: seq<Capture>, settled: nat, opening: nat, copied: nat :|
      b < settled && copied <= c && Captured(trace, s, own, settled, opening, copied)
      && OwnCaptures(own, captures, s.database);
    forall e | e in own
      ensures EntryFor(hash, e) in entries
    {
      var i :| 0 <= i < |captures| && captures[i] == e;
      assert entries[i] == EntryFor(hash, e);
    }
    forall e | e in entries && e.sourceSetID == s.database
      ensures exists c :: c in own && e == EntryFor(hash, c)
    {
      var i :| 0 <= i < |entries| && entries[i] == e;
      assert captures[i] in captures && captures[i] in own;
    }
    assert EntriesAreOf(hash, s.database, own, entries);
  }

  lemma EntriesDocument(trace: Trace, hash: Hash, plan: Plan, captures: seq<Capture>, entries: seq<Entry>)
    requires |entries| == |captures| && AllDigestsKnown(FinalizedSets(plan, entries))
    requires forall i :: 0 <= i < |captures| ==> entries[i] == EntryFor(hash, captures[i])
    requires forall c :: c in captures ==> WasContent(trace, hash, c.copy.fingerprint, hash(c.copy.content))
    requires forall id :: id in plan.evidence.sourceSets ==> plan.evidence.sourceSets[id].setID == id
    ensures Documented(trace, hash, plan.evidence.sourceSets, FinalizedSets(plan, entries))
  {
    var planned, sets := plan.evidence.sourceSets, FinalizedSets(plan, entries);
    forall id, role | id in sets && role in sets[id].files
      ensures FileDocumented(trace, hash, planned, id, role, sets[id].files[role])
    {
      var entry := EntryOf(entries, id, role);
      EntryOfMeans(entries, id, role);
      if entry.Some? {
        var i :| 0 <= i < |captures| && entries[i] == entry.value;
        assert captures[i] in captures;
      }
    }
  }

  function Retries(requested: int): nat {
    if requested < 0 then 0 else requested
  }

  /** Retries the attempt, each try in a directory of its own; a success on any try is a full attempt. */
  method CreateSnapshot(machine: Machine, plan: Plan, hash: Hash, allowClone: bool, maxRetries: int, createdAt: real)
    returns (r: Result<Manifest, SnapshotFailure>, ghost at: Attempt)
    requires Honest(machine.trace) && PlanCovers(plan)
    modifies machine`now, machine`directories
    ensures old(machine.now) <= machine.now
    ensures r.Ok? ==>
      old(machine.now) <= at.started && at.ended == machine.now && Acquired(machine.trace, hash, at, plan, r.value)
    ensures r.Err? ==> Hindered(machine.trace, old(machine.now), machine.now, plan)
    ensures maxRetries <= 0 ==> machine.directories == old(machine.directories) + 1
    ensures maxRetries > 0 ==> 1 <= machine.directories - old(machine.directories) <= 1 + maxRetries
    ensures maxRetries > 0 && r.Err? ==> machine.directories == old(machine.directories) + 1 + maxRetries
  {
    at := Attempt(0, 0, 0, 0);
    var lastError: Option<SnapshotFailure> := None;
    for i := 0 to 1 + Retries(maxRetries)
      invariant old(machine.now) <= machine.now && machine.directories == old(machine.directories) + i
      invariant i > 0 ==> lastError.Some? && Hindered(machine.trace, old(machine.now), machine.now, plan)
    {
      ghost var before := machine.now;
      var manifest;
      manifest, at := SnapshotAttempt(machine, plan, hash, allowClone, createdAt);
      match manifest {
        case Ok(_) => return manifest, at;
        case Err(e) =>
          HinderedLonger(machine.trace, old(machine.now), before, machine.now, machine.now, plan);
          lastError := Some(e);
      }
    }
    return Err(lastError.value), at;
  }

  // ----- chains of acquisitions -----

  function Earlier(previous: Option<Manifest>): Inventory {
    match previous
    case None => map[]
    case Some(manifest) => InventoryBySet(manifest)
  }

  datatype Request = Request(sets: seq<DatabaseSet>, accountBinding: string, force: bool, interval: Option<real>,
                             window: real, now: real, allowClone: bool, maxRetries: int)

  /** One acquisition: asked for, planned in (planning, planned], then attempted. */
  datatype Run = Run(request: Request, planning: nat, planned: nat, plan: Plan, at: Attempt, manifest: Manifest)

  /** The plan carries digests from the previous manifest only, and only under the fingerprint it saw. */
  ghost predicate PlannedFrom(trace: Trace, a: nat, b: nat, previous: Option<Manifest>, plan: Plan) {
    PlanCovers(plan) && InventoryReadBetween(trace, a, b, plan.allSets, Earlier(previous), plan.evidence.sourceSets)
    && (previous.Some? ==> previous.value.accountBinding == Some(plan.accountBinding))
  }

  /** The plan reads again what the request asks for. */
  ghost predicate Serves(previous: Option<Manifest>, q: Request, plan: Plan) {
    && plan.allSets == q.sets && plan.accountBinding == q.accountBinding
    && plan.evidence.mode == ModeFor(previous, q.force, q.interval, q.now)
    && plan.evidence.lastIntegrityScanAt == ScanAfter(previous, plan.evidence.mode, q.now)
    && SelectsExactly(plan.evidence, Earlier(previous), q.window, q.now)
  }

  ghost predicate Follows(trace: Trace, hash: Hash, previous: Option<Manifest>, run: Run) {
    && run.planning <= run.planned <= run.at.started
    && PlannedFrom(trace, run.planning, run.planned, previous, run.plan) && Serves(previous, run.request, run.plan)
    && Acquired(trace, hash, run.at, run.plan, run.manifest)
  }

  /** Throughout (a, b] the file beside the database is there if it is listed, and otherwise there is none. */
  ghost predicate AsListed(trace: Trace, a: nat, b: nat, path: Path, listed: Option<Path>) {
    if listed.Some? then listed.value == path && PathCalm(trace, a, b, path) else PathGone(trace, a, b, path)
  }

  ghost predicate SetStands(trace: Trace, a: nat, b: nat, s: DatabaseSet) {
    PathCalm(trace, a, b, s.database) && AsListed(trace, a, b, s.database + "-wal", s.writeAheadLog)
    && AsListed(trace, a, b, s.database + "-shm", s.sharedMemory)
  }

  /** Throughout (a, b] the sets are as listed, nothing happens to them, and no call has a reason to fail. */
  ghost predicate SourceStands(trace: Trace, a: nat, b: nat, sets: seq<DatabaseSet>) {
    !Broken(trace, a, b) && forall s :: s in sets ==> SetStands(trace, a, b, s)
  }

  lemma SetStandsWithin(trace: Trace, a: nat, b: nat, c: nat, d: nat, s: DatabaseSet)
    requires a <= b && c <= d && SetStands(trace, a, d, s)
    ensures SetStands(trace, b, c, s)
  {
    CalmWithin(trace, a, b, c, d, s.database);
    if s.writeAheadLog.Some? {
      CalmWithin(trace, a, b, c, d, s.database + "-wal");
    }
    if s.sharedMemory.Some? {
      CalmWithin(trace, a, b, c, d, s.database + "-shm");
    }
  }

  lemma SourceStandsWithin(trace: Trace, a: nat, b: nat, c: nat, d: nat, sets: seq<DatabaseSet>)
    requires a <= b && c <= d && SourceStands(trace, a, d, sets)
    ensures SourceStands(trace, b, c, sets)
  {
    forall s | s in sets
      ensures SetStands(trace, b, c, s)
    {
      SetStandsWithin(trace, a, b, c, d, s);
    }
  }

  lemma StandingAreFound(trace: Trace, a: nat, b: nat, sets: seq<DatabaseSet>)
    requires SourceStands(trace, a, b, sets)
    ensures forall s :: s in sets ==> Readable(trace, a, b, s.database) && SetCalm(trace, a, b, s)
  {
    forall s | s in sets
      ensures Readable(trace, a, b, s.database) && SetCalm(trace, a, b, s)
    {
      assert SetStands(trace, a, b, s);
    }
  }

  /** A planned file is there and listed, and it is the one that was seen; the others are not there. */
  lemma StandingIsPlanned(trace: Trace, a: nat, b: nat, c: nat, earlier: Inventory, plan: Plan, s: DatabaseSet,
                          role: Role)
    requires a <= b <= c && SetStands(trace, a, c, s) && SetRead(trace, a, b, s, earlier, plan.evidence.sourceSets)
    ensures role in plan.evidence.sourceSets[s.database].files ==> Lists(s, role)
    ensures FileStands(trace, b, c, plan, s.database, role)
  {
    var path, files := PathOf(s.database, role), plan.evidence.sourceSets[s.database].files;
    GoneOrThere(trace, a, b, path);
    SetStandsWithin(trace, a, a, b, c, s);
    assert PathCalm(trace, a, c, path) || PathGone(trace, a, c, path);
    if role in files {
      assert SeenBetween(trace, a, b, path, files[role].fingerprint);
      var file :| Calm(trace, a, c, path, file);
      assert Calm(trace, a, b, path, file) && Calm(trace, b, c, path, file);
      CalmIsSeen(trace, a, b, path, file, files[role].fingerprint);
    }
  }

  /** A plan made of a source that stands still stands, as long as the source does. */
  lemma StandingPlan(trace: Trace, a: nat, b: nat, c: nat, previous: Option<Manifest>, plan: Plan)
    requires a <= b <= c && PlannedFrom(trace, a, b, previous, plan) && SourceStands(trace, a, c, plan.allSets)
    ensures NothingHappens(trace, b, c, plan)
  {
    SourceStandsWithin(trace, a, b, c, c, plan.allSets);
    StandingAreFound(trace, b, c, plan.allSets);
    forall id, role | id in plan.evidence.sourceSets
      ensures FileStands(trace, b, c, plan, id, role)
    {
      var s :| s in plan.allSets && s.database == id;
      assert SetStands(trace, a, c, s) && SetRead(trace, a, b, s, Earlier(previous), plan.evidence.sourceSets);
      StandingIsPlanned(trace, a, b, c, Earlier(previous), plan, s, role);
    }
  }

  /** And it leaves no file without a digest, if the earlier manifest did not. */
  lemma StandingIsCovered(trace: Trace, a: nat, b: nat, previous: Option<Manifest>, q: Request, plan: Plan, id: SetID,
                          role: Role)
    requires a <= b && PlannedFrom(trace, a, b, previous, plan) && Serves(previous, q, plan)
    requires SourceStands(trace, a, b, plan.allSets) && AllDigestsKnown(Earlier(previous))
    ensures !Uncovered(plan, id, role)
  {
    var planned := plan.evidence.sourceSets;
    if id in planned && role in planned[id].files {
      var s :| s in plan.allSets && s.database == id;
      assert SetStands(trace, a, b, s) && SetRead(trace, a, b, s, Earlier(previous), planned);
      StandingIsPlanned(trace, a, b, b, Earlier(previous), plan, s, role);
      if id in SelectedIDs(plan.evidence) {
        assert s in plan.selectedSets;
      } else {
        assert SameMetadata(Earlier(previous), planned, id);
        assert planned[id].files[role].digest
          == Carried(Earlier(previous), id, role, planned[id].files[role].fingerprint);
      }
    }
  }

  /** While the source stands still, an attempt on a fresh plan cannot fail. */
  lemma StandingSucceeds(trace: Trace, a: nat, b: nat, c: nat, previous: Option<Manifest>, q: Request, plan: Plan)
    requires a <= b <= c && PlannedFrom(trace, a, b, previous, plan) && Serves(previous, q, plan)
    requires SourceStands(trace, a, c, plan.allSets) && AllDigestsKnown(Earlier(previous))
    ensures !Hindered(trace, b, c, plan)
  {
    StandingPlan(trace, a, b, c, previous, plan);
    SourceStandsWithin(trace, a, a, b, c, plan.allSets);
    forall id, role
      ensures !Uncovered(plan, id, role)
    {
      StandingIsCovered(trace, a, b, previous, q, plan, id, role);
    }
  }

  ghost predicate RefusedRequest(previous: Option<Manifest>, q: Request) {
    NotTakenOn(q.sets, q.accountBinding, previous, q.interval, q.window)
  }

  /** The command: plan against the previous manifest, then snapshot what the plan selects. */
  method Acquire(machine: Machine, previous: Option<Manifest>, q: Request, hash: Hash)
    returns (r: Result<Manifest, SnapshotFailure>, ghost run: Option<Run>)
    requires Honest(machine.trace) && DistinctSets(q.sets)
    modifies machine`now, machine`directories
    ensures old(machine.now) <= machine.now
    ensures r.Err? ==> run.None?
    ensures r.Ok? ==> run.Some? && run.value.manifest == r.value && run.value.request == q
    ensures r.Ok? ==> Follows(machine.trace, hash, previous, run.value)
    ensures r.Ok? ==> run.value.planning == old(machine.now) && run.value.at.ended == machine.now
    ensures RefusedRequest(previous, q) ==> r.Err?
    ensures r.Err? && AllDigestsKnown(Earlier(previous)) ==>
      RefusedRequest(previous, q) || !SourceStands(machine.trace, old(machine.now), machine.now, q.sets)
  {
    run := None;
    ghost var start := machine.now;
    var plan := MakePlan(machine, q.sets, q.accountBinding, previous, q.force, q.interval, q.window, q.now);
    if plan.Err? {
      if SourceStands(machine.trace, start, machine.now, q.sets) {
        StandingAreFound(machine.trace, start, machine.now, q.sets);
      }
      return Err(Planning(plan.error)), run;
    }
    ghost var planned := machine.now;
    PlansCover(machine.trace, old(machine.now), planned, Earlier(previous), plan.value);
    ghost var at;
    r, at := CreateSnapshot(machine, plan.value, hash, q.allowClone, q.maxRetries, q.now);
    if r.Ok? {
      run := Some(Run(q, old(machine.now), planned, plan.value, at, r.value));
    } else if SourceStands(machine.trace, start, machine.now, q.sets) && AllDigestsKnown(Earlier(previous)) {
      StandingSucceeds(machine.trace, start, planned, machine.now, previous, q, plan.value);
    }
  }

  lemma PlansCover(trace: Trace, a: nat, b: nat, earlier: Inventory, plan: Plan)
    requires DistinctSets(plan.allSets)
    requires InventoryReadBetween(trace, a, b, plan.allSets, earlier, plan.evidence.sourceSets)
    requires plan.selectedSets == Select(plan.allSets, SelectedIDs(plan.evidence))
    ensures PlanCovers(plan)
  {
    forall id | id in plan.evidence.sourceSets
      ensures plan.evidence.sourceSets[id].setID == id
    {
      var s :| s in plan.allSets && s.database == id;
      assert SetRead(trace, a, b, s, earlier, plan.evidence.sourceSets);
    }
  }

  lemma CarriedIsTruthful(trace: Trace, hash: Hash, a: nat, b: nat, s: DatabaseSet, earlier: Inventory,
                          planned: Inventory, role: Role)
    requires SetRead(trace, a, b, s, earlier, planned) && TruthfulInventory(trace, hash, earlier)
    requires role in planned[s.database].files
    ensures TruthfulFile(trace, hash, planned[s.database].files[role])
  {
    var file := planned[s.database].files[role];
    assert file.digest == Carried(earlier, s.database, role, file.fingerprint);
    if file.digest.Some? {
      assert TruthfulFile(trace, hash, earlier[s.database].files[role]);
    }
  }

  /** Planning on top of true digests carries true digests only. */
  lemma PlanningStaysTruthful(trace: Trace, hash: Hash, a: nat, b: nat, previous: Option<Manifest>, plan: Plan)
    requires PlannedFrom(trace, a, b, previous, plan) && TruthfulInventory(trace, hash, Earlier(previous))
    ensures TruthfulInventory(trace, hash, plan.evidence.sourceSets)
  {
    var earlier, planned := Earlier(previous), plan.evidence.sourceSets;
    forall id, role | id in planned && role in planned[id].files
      ensures TruthfulFile(trace, hash, planned[id].files[role])
    {
      var s :| s in plan.allSets && s.database == id;
      CarriedIsTruthful(trace, hash, a, b, s, earlier, planned, role);
    }
  }

  /** One acquisition on top of true digests records true digests only, and records all of them. */
  lemma FollowingStaysTruthful(trace: Trace, hash: Hash, earlier: Inventory, inventory: Inventory)
    requires Honest(trace) && TruthfulInventory(trace, hash, earlier)
    requires Documented(trace, hash, earlier, inventory)
    ensures AllDigestsKnown(inventory) && TruthfulInventory(trace, hash, inventory)
  {
    forall id, role | id in inventory && role in inventory[id].files
      ensures inventory[id].files[role].digest.Some?
      ensures Truthful(trace, hash, inventory[id].files[role].fingerprint, inventory[id].files[role].digest.value)
    {
      var file := inventory[id].files[role];
      assert FileDocumented(trace, hash, earlier, id, role, file);
      assert id in earlier && role in earlier[id].files ==> TruthfulFile(trace, hash, earlier[id].files[role]);
      if WasContent(trace, hash, file.fingerprint, file.digest.value) {
        OnceIsAlways(trace, hash, file.fingerprint, file.digest.value);
      }
    }
  }

  function LastManifest(runs: seq<Run>): Option<Manifest> {
    if runs == [] then None else Some(runs[|runs| - 1].manifest)
  }

  /** `runs` is a history of acquisitions, each on top of the one before, the first a bootstrap. */
  ghost predicate IsChain(trace: Trace, hash: Hash, runs: seq<Run>) {
    runs == []
    || (IsChain(trace, hash, runs[..|runs| - 1])
        && Follows(trace, hash, LastManifest(runs[..|runs| - 1]), runs[|runs| - 1]))
  }

  function RequestsOf(runs: seq<Run>): seq<Request> {
    seq(|runs|, i requires 0 <= i < |runs| => runs[i].request)
  }

  lemma ServedNext(runs: seq<Run>, run: Run, requests: seq<Request>, i: nat)
    requires i < |requests| && IsSubsequence(RequestsOf(runs), requests[..i]) && run.request == requests[i]
    ensures IsSubsequence(RequestsOf(runs + [run]), requests[..i + 1])
  {
    assert requests[..i + 1][..i] == requests[..i];
    assert RequestsOf(runs + [run]) == RequestsOf(runs) + [run.request];
    assert RequestsOf(runs + [run])[..|runs|] == RequestsOf(runs);
  }

  /** Requests that fit together, while the source stands still throughout (a, b]. */
  ghost predicate Undisturbed(trace: Trace, a: nat, b: nat, requests: seq<Request>) {
    && (forall q, other :: q in requests && other in requests ==> q.accountBinding == other.accountBinding)
    && forall q :: q in requests ==>
         q.sets != [] && q.window >= 0.0 && (q.interval.Some? ==> q.interval.value > 0.0)
         && SourceStands(trace, a, b, q.sets)
  }

  lemma UndisturbedBefore(trace: Trace, a: nat, b: nat, c: nat, requests: seq<Request>, i: nat)
    requires i < |requests| && b <= c && Undisturbed(trace, a, c, requests[..i + 1])
    ensures Undisturbed(trace, a, b, requests[..i])
    ensures requests[i] in requests[..i + 1]
  {
    assert requests[..i + 1] == requests[..i] + [requests[i]];
    forall q | q in requests[..i]
      ensures SourceStands(trace, a, b, q.sets)
    {
      SourceStandsWithin(trace, a, a, b, c, q.sets);
    }
  }

  /** What the last manifest of a chain brings into the next plan. */
  lemma LastIsComplete(trace: Trace, hash: Hash, runs: seq<Run>)
    requires Honest(trace) && IsChain(trace, hash, runs)
    ensures AllDigestsKnown(Earlier(LastManifest(runs)))
    ensures runs != [] ==>
      LastManifest(runs).value.accountBinding == Some(runs[|runs| - 1].request.accountBinding)
  {
    ChainIsTruthful(trace, hash, runs);
    if runs != [] {
      assert Follows(trace, hash, LastManifest(runs[..|runs| - 1]), runs[|runs| - 1]);
    }
  }

  /** After runs for all requests so far, the next one is not refused and nothing keeps it from being served. */
  lemma NextIsServed(trace: Trace, a: nat, b: nat, c: nat, requests: seq<Request>, i: nat, last: Option<Manifest>)
    requires i < |requests| && a <= b <= c && Undisturbed(trace, a, c, requests[..i + 1])
    requires last.Some? ==> i > 0 && last.value.accountBinding == Some(requests[i - 1].accountBinding)
    ensures !RefusedRequest(last, requests[i]) && SourceStands(trace, b, c, requests[i].sets)
  {
    UndisturbedBefore(trace, a, b, c, requests, i);
    SourceStandsWithin(trace, a, b, c, c, requests[i].sets);
    if last.Some? {
      assert requests[..i + 1][i - 1] == requests[i - 1];
    }
  }

  ghost predicate AllServed(trace: Trace, a: nat, b: nat, requests: seq<Request>, i: nat, runs: seq<Run>)
    requires i <= |requests|
  {
    Undisturbed(trace, a, b, requests[..i]) ==> RequestsOf(runs) == requests[..i]
  }

  lemma ServesNext(trace: Trace, a: nat, b: nat, c: nat, requests: seq<Request>, i: nat, runs: seq<Run>,
                   run: Option<Run>)
    requires i < |requests| && a <= b <= c
    requires runs != [] ==> LastManifest(runs).value.accountBinding == Some(runs[|runs| - 1].request.accountBinding)
    requires AllServed(trace, a, b, requests, i, runs) && (run.Some? ==> run.value.request == requests[i])
    requires run.None? ==>
      RefusedRequest(LastManifest(runs), requests[i]) || !SourceStands(trace, b, c, requests[i].sets)
    ensures AllServed(trace, a, c, requests, i + 1, if run.Some? then runs + [run.value] else runs)
  {
    if Undisturbed(trace, a, c, requests[..i + 1]) {
      UndisturbedBefore(trace, a, b, c, requests, i);
      assert |RequestsOf(runs)| == i && (i > 0 ==> RequestsOf(runs)[i - 1] == requests[i - 1]);
      NextIsServed(trace, a, b, c, requests, i, LastManifest(runs));
      assert requests[..i + 1] == requests[..i] + [requests[i]];
      assert RequestsOf(runs + [run.value]) == RequestsOf(runs) + [requests[i]];
    }
  }

  /** Acquisitions one after the other, each against the last manifest there is: those that succeed make a chain. */
  method Acquisitions(machine: Machine, requests: seq<Request>, hash: Hash)
    returns (last: Option<Manifest>, ghost runs: seq<Run>)
    requires Honest(machine.trace) && forall q :: q in requests ==> DistinctSets(q.sets)
    modifies machine`now, machine`directories
    ensures IsChain(machine.trace, hash, runs) && last == LastManifest(runs)
    ensures IsSubsequence(RequestsOf(runs), requests)
    ensures Undisturbed(machine.trace, old(machine.now), machine.now, requests) ==> RequestsOf(runs) == requests
  {
    last, runs := None, [];
    for i := 0 to |requests|
      invariant old(machine.now) <= machine.now
      invariant AllServed(machine.trace, old(machine.now), machine.now, requests, i, runs)
      invariant IsChain(machine.trace, hash, runs) && last == LastManifest(runs)
      invariant IsSubsequence(RequestsOf(runs), requests[..i])
    {
      ghost var before := machine.now;
      var manifest, run := Acquire(machine, last, requests[i], hash);
      LastIsComplete(machine.trace, hash, runs);
      ServesNext(machine.trace, old(machine.now), before, machine.now, requests, i, runs, run);
      assert requests[..i + 1][..i] == requests[..i];
      if manifest.Ok? {
        ServedNext(runs, run.value, requests, i);
        assert (runs + [run.value])[..|runs|] == runs;
        runs := runs + [run.value];
        last := Some(manifest.value);
      }
    }
    assert requests[..|requests|] == requests;
  }

  /** When the chain last read everything. */
  function LastScan(runs: seq<Run>): Option<real> {
    if runs == [] then None
    else
      var run := runs[|runs| - 1];
      if run.plan.evidence.mode != Incremental then Some(run.request.now) else LastScan(runs[..|runs| - 1])
  }

  /** Manifests carry that time along, however many incremental runs there were since. */
  lemma {:induction false} LastScanIsKnown(trace: Trace, hash: Hash, runs: seq<Run>)
    requires IsChain(trace, hash, runs)
    ensures PreviousScan(LastManifest(runs)) == LastScan(runs) && (runs != [] ==> LastScan(runs).Some?)
  {
    if runs != [] {
      var front, run := runs[..|runs| - 1], runs[|runs| - 1];
      LastScanIsKnown(trace, hash, front);
      assert Follows(trace, hash, LastManifest(front), run);
      assert run.manifest.acquisition.value.lastIntegrityScanAt == run.plan.evidence.lastIntegrityScanAt;
    }
  }

  /** A run is incremental exactly when nothing forces a scan and the last one in the chain is not due again. */
  lemma NoScanIsOverdue(trace: Trace, hash: Hash, runs: seq<Run>)
    requires IsChain(trace, hash, runs) && runs != []
    ensures var front, run := runs[..|runs| - 1], runs[|runs| - 1];
            run.plan.evidence.mode == Incremental
            <==> front != [] && !run.request.force
                 && (run.request.interval.Some? ==>
                       LastScan(front).Some? && run.request.now - LastScan(front).value < run.request.interval.value)
    ensures runs[|runs| - 1].plan.evidence.mode == Bootstrap <==> |runs| == 1
  {
    LastScanIsKnown(trace, hash, runs[..|runs| - 1]);
    assert Follows(trace, hash, LastManifest(runs[..|runs| - 1]), runs[|runs| - 1]);
  }

  /** Every run of a chain ended a chain of its own, so what holds of the last run holds of each. */
  lemma {:induction false} ChainUpTo(trace: Trace, hash: Hash, runs: seq<Run>, i: nat)
    requires IsChain(trace, hash, runs) && i <= |runs|
    ensures IsChain(trace, hash, runs[..i])
  {
    if i < |runs| {
      ChainUpTo(trace, hash, runs[..|runs| - 1], i);
      assert runs[..|runs| - 1][..i] == runs[..i];
    } else {
      assert runs[..i] == runs;
    }
  }

  /** What is recorded along a chain is true from the first run on. */
  lemma RunStaysTruthful(trace: Trace, hash: Hash, previous: Option<Manifest>, run: Run)
    requires Honest(trace) && Follows(trace, hash, previous, run) && TruthfulInventory(trace, hash, Earlier(previous))
    ensures TruthfulInventory(trace, hash, run.plan.evidence.sourceSets)
    ensures TruthfulManifest(trace, hash, run.manifest)
    ensures TruthfulInventory(trace, hash, Earlier(Some(run.manifest)))
  {
    PlanningStaysTruthful(trace, hash, run.planning, run.planned, previous, run.plan);
    FollowingStaysTruthful(trace, hash, run.plan.evidence.sourceSets, run.manifest.acquisition.value.sourceSets);
  }

  /** Every file on record has a digest, and a true one. */
  ghost predicate TruthfulManifest(trace: Trace, hash: Hash, manifest: Manifest) {
    manifest.acquisition.Some? && AllDigestsKnown(manifest.acquisition.value.sourceSets)
    && TruthfulInventory(trace, hash, manifest.acquisition.value.sourceSets)
  }

  /** However long the chain and whatever was carried along it, the last plan and manifest hold true digests only. */
  lemma {:induction false} ChainIsTruthful(trace: Trace, hash: Hash, runs: seq<Run>)
    requires Honest(trace) && IsChain(trace, hash, runs)
    ensures TruthfulInventory(trace, hash, Earlier(LastManifest(runs)))
    ensures runs != [] ==>
      var run := runs[|runs| - 1];
      TruthfulInventory(trace, hash, run.plan.evidence.sourceSets) && TruthfulManifest(trace, hash, run.manifest)
  {
    if runs != [] {
      ChainIsTruthful(trace, hash, runs[..|runs| - 1]);
      RunStaysTruthful(trace, hash, LastManifest(runs[..|runs| - 1]), runs[|runs| - 1]);
    }
  }

  lemma UnreadIsRecorded(trace: Trace, hash: Hash, at: Attempt, plan: Plan, manifest: Manifest, id: SetID, role: Role)
    requires Acquired(trace, hash, at, plan, manifest) && LeftUnread(plan, id, role)
    ensures manifest.acquisition.Some?
    ensures id in manifest.acquisition.value.sourceSets && role in manifest.acquisition.value.sourceSets[id].files
    ensures plan.evidence.sourceSets[id].setID == id ==>
      manifest.acquisition.value.sourceSets[id].files[role] == plan.evidence.sourceSets[id].files[role]
      && plan.evidence.sourceSets[id].files[role].digest.Some?
    ensures HeldThroughout(trace, at.verified, at.copied, PathOf(id, role),
                           plan.evidence.sourceSets[id].files[role].fingerprint)
    ensures at.verified <= at.copied
  {
    EntryOfMeans(manifest.entries, id, role);
    assert FileDocumented(trace, hash, plan.evidence.sourceSets, id, role,
                          FinalizedSets(plan, manifest.entries)[id].files[role]);
  }

  lemma RehashOfUnread(trace: Trace, hash: Hash, at: Attempt, plan: Plan, manifest: Manifest, id: SetID, role: Role)
    returns (file: File)
    requires Honest(trace) && PlanCovers(plan) && Acquired(trace, hash, at, plan, manifest)
      && LeftUnread(plan, id, role)
    requires TruthfulInventory(trace, hash, plan.evidence.sourceSets)
    ensures ShownThroughout(trace, at.verified, at.copied, PathOf(id, role), file)
    ensures manifest.acquisition.Some?
      && RecordIs(manifest, id, role, FileInventory(file.fingerprint, Some(hash(file.content))))
  {
    UnreadIsRecorded(trace, hash, at, plan, manifest, id, role);
    var planned := plan.evidence.sourceSets[id].files[role];
    assert TruthfulFile(trace, hash, planned);
    file := TruthfulOfHeld(trace, hash, at.verified, at.copied, PathOf(id, role), planned.fingerprint,
                           planned.digest.value);
  }

  lemma TruthfulOfHeld(trace: Trace, hash: Hash, a: nat, b: nat, path: Path, fingerprint: Fingerprint, digest: Digest)
    returns (file: File)
    requires Honest(trace) && a <= b && HeldThroughout(trace, a, b, path, fingerprint)
      && Truthful(trace, hash, fingerprint, digest)
    ensures ShownThroughout(trace, a, b, path, file) && file.fingerprint == fingerprint && hash(file.content) == digest
  {
    file :| file.fingerprint == fingerprint && file.regular && ShownThroughout(trace, a, b, path, file);
    assert Shows(trace, a, path, file) && Labelled(trace[a]);
    assert Holds(trace, a, fingerprint.Id(), file);
  }

  predicate RecordIs(manifest: Manifest, id: SetID, role: Role, file: FileInventory)
    requires manifest.acquisition.Some?
  {
    var recorded := manifest.acquisition.value.sourceSets;
    id in recorded && role in recorded[id].files && recorded[id].files[role] == file
  }

  /**
    At the end of a chain, a file that was not read again held one content
    during all of the copying, and its record is what rehashing it would have given.
   */
  lemma CarriedEqualsRehash(trace: Trace, hash: Hash, runs: seq<Run>, id: SetID, role: Role) returns (file: File)
    requires Honest(trace) && IsChain(trace, hash, runs) && runs != []
    requires LeftUnread(runs[|runs| - 1].plan, id, role)
    ensures ShownThroughout(trace, runs[|runs| - 1].at.verified, runs[|runs| - 1].at.copied, PathOf(id, role), file)
    ensures runs[|runs| - 1].manifest.acquisition.Some?
    ensures RecordIs(runs[|runs| - 1].manifest, id, role, FileInventory(file.fingerprint, Some(hash(file.content))))
  {
    ChainIsTruthful(trace, hash, runs);
    var run := runs[|runs| - 1];
    file := RehashOfUnread(trace, hash, run.at, run.plan, run.manifest, id, role);
  }

  /**
    A snapshot is consistent across its sets: at one and the same instant every
    file of a captured set and every file left unread was there, each under its
    own name, with the fingerprint on record and a content of the digest on record.
   */
  lemma CapturedBesideUnread(trace: Trace, hash: Hash, runs: seq<Run>, s: DatabaseSet) returns (k: nat)
    requires Honest(trace) && IsChain(trace, hash, runs) && runs != [] && s in runs[|runs| - 1].plan.selectedSets
    ensures SelectedRecordedAt(trace, hash, k, runs[|runs| - 1].manifest, s)
    ensures UnreadRecordedAt(trace, hash, k, runs[|runs| - 1])
  {
    var run := runs[|runs| - 1];
    k := CapturedDuring(trace, hash, run.at, run.plan, run.manifest, s);
    UnreadDuring(trace, hash, runs, k);
  }

  /** The same by the names that files of their role have: `-wal` and `-shm` behind that of the database. */
  lemma CapturedByName(trace: Trace, hash: Hash, k: nat, manifest: Manifest, s: DatabaseSet, role: Role)
    requires SelectedRecordedAt(trace, hash, k, manifest, s)
    requires s.writeAheadLog.Some? ==> s.writeAheadLog.value == s.database + "-wal"
    requires s.sharedMemory.Some? ==> s.sharedMemory.value == s.database + "-shm"
    requires role == Database || (role == WriteAheadLog && s.writeAheadLog.Some?)
             || (role == SharedMemory && s.sharedMemory.Some?)
    requires s.database in manifest.acquisition.value.sourceSets
    requires role in manifest.acquisition.value.sourceSets[s.database].files
    ensures RecordedAt(trace, hash, k, manifest, s.database, role)
  {
  }

  lemma UnreadDuring(trace: Trace, hash: Hash, runs: seq<Run>, k: nat)
    requires Honest(trace) && IsChain(trace, hash, runs) && runs != []
    requires runs[|runs| - 1].at.verified <= k <= runs[|runs| - 1].at.copied
    ensures UnreadRecordedAt(trace, hash, k, runs[|runs| - 1])
  {
    var run := runs[|runs| - 1];
    forall id, role | LeftUnread(run.plan, id, role)
      ensures RecordedAt(trace, hash, k, run.manifest, id, role)
    {
      var file := CarriedEqualsRehash(trace, hash, runs, id, role);
      assert Shows(trace, k, PathOf(id, role), file);
    }
  }

  lemma CapturedDuring(trace: Trace, hash: Hash, at: Attempt, plan: Plan, manifest: Manifest, s: DatabaseSet)
    returns (k: nat)
    requires PlanCovers(plan) && Acquired(trace, hash, at, plan, manifest) && s in plan.selectedSets
    ensures at.verified < k <= at.copied && SelectedRecordedAt(trace, hash, k, manifest, s)
  {
    assert SetAcquired(trace, hash, at.verified, at.copied, s, manifest.entries);
    var captures, settled: nat, opening: nat, copied: nat :|
      at.verified < settled && copied <= at.copied && Captured(trace, s, captures, settled, opening, copied)
      && EntriesAreOf(hash, s.database, captures, manifest.entries);
    k := settled;
    CapturedAreRecorded(trace, hash, k, plan, manifest, s, captures);
  }

  lemma CapturedAreRecorded(trace: Trace, hash: Hash, k: nat, plan: Plan, manifest: Manifest, s: DatabaseSet,
                            captures: seq<Capture>)
    requires NamedByThemselves(plan.evidence.sourceSets) && AreFilesOf(captures, s) && HeldTogether(trace, k, captures)
    requires EntriesAreOf(hash, s.database, captures, manifest.entries)
    requires manifest.acquisition == Some(plan.evidence.(sourceSets := FinalizedSets(plan, manifest.entries)))
    ensures SelectedRecordedAt(trace, hash, k, manifest, s)
  {
    CapturedIsRecorded(trace, hash, k, plan, manifest, s, captures, Database, s.database, s.logicalPath);
    if s.writeAheadLog.Some? {
      CapturedIsRecorded(trace, hash, k, plan, manifest, s, captures, WriteAheadLog, s.writeAheadLog.value,
                         s.logicalPath + "-wal");
    }
    if s.sharedMemory.Some? {
      CapturedIsRecorded(trace, hash, k, plan, manifest, s, captures, SharedMemory, s.sharedMemory.value,
                         s.logicalPath + "-shm");
    }
  }

  lemma CapturedIsRecorded(trace: Trace, hash: Hash, k: nat, plan: Plan, manifest: Manifest, s: DatabaseSet,
                           captures: seq<Capture>, role: Role, source: Path, logicalPath: string)
    requires NamedByThemselves(plan.evidence.sourceSets) && AreFilesOf(captures, s) && HeldTogether(trace, k, captures)
    requires OneFileOf(captures, role, source, logicalPath)
      && EntriesAreOf(hash, s.database, captures, manifest.entries)
    requires manifest.acquisition == Some(plan.evidence.(sourceSets := FinalizedSets(plan, manifest.entries)))
    ensures FileRecordedAt(trace, hash, k, manifest, s.database, role, source)
  {
    var i :| 0 <= i < |captures| && captures[i].file.role == role && captures[i].file.source == source
             && forall j :: 0 <= j < |captures| && j != i ==> captures[j].file.role != role;
    var c := captures[i];
    assert c in captures && Shows(trace, k, source, c.AsFile());
    EntryOfMeans(manifest.entries, s.database, role);
    assert EntryIsFor(EntryFor(hash, c), s.database, role);
    var e := EntryOf(manifest.entries, s.database, role).value;
    var d :| d in captures && e == EntryFor(hash, d);
    var j :| 0 <= j < |captures| && captures[j] == d;
    assert d == c;
  }

  /** If on record, the file was there at instant `k` under this name, with the recorded fingerprint and digest. */
  ghost predicate FileRecordedAt(trace: Trace, hash: Hash, k: nat, manifest: Manifest, id: SetID, role: Role,
                                 source: Path) {
    manifest.acquisition.Some?
    && (id in manifest.acquisition.value.sourceSets && role in manifest.acquisition.value.sourceSets[id].files ==>
          exists file :: Shows(trace, k, source, file)
            && RecordIs(manifest, id, role, FileInventory(file.fingerprint, Some(hash(file.content)))))
  }

  /** So it is for each file of a captured set. */
  ghost predicate SelectedRecordedAt(trace: Trace, hash: Hash, k: nat, manifest: Manifest, s: DatabaseSet) {
    && FileRecordedAt(trace, hash, k, manifest, s.database, Database, s.database)
    && (s.writeAheadLog.Some? ==>
          FileRecordedAt(trace, hash, k, manifest, s.database, WriteAheadLog, s.writeAheadLog.value))
    && (s.sharedMemory.Some? ==>
          FileRecordedAt(trace, hash, k, manifest, s.database, SharedMemory, s.sharedMemory.value))
  }

  ghost predicate UnreadRecordedAt(trace: Trace, hash: Hash, k: nat, run: Run) {
    forall id, role :: LeftUnread(run.plan, id, role) ==> RecordedAt(trace, hash, k, run.manifest, id, role)
  }

  /** At instant `k` the file was there with the recorded fingerprint and a content of the recorded digest. */
  ghost predicate RecordedAt(trace: Trace, hash: Hash, k: nat, manifest: Manifest, id: SetID, role: Role) {
    manifest.acquisition.Some?
    && exists file :: Shows(trace, k, PathOf(id, role), file)
         && RecordIs(manifest, id, role, FileInventory(file.fingerprint, Some(hash(file.content))))
  }
}
