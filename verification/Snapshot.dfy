/**
  Capturing database sets while their owner keeps writing
  (Sources/GreenBubblesCore/ReadOnlySnapshot.swift).
 */
module Snapshot {
  import opened Wrappers
  import opened Volume

  datatype Role = Database | SharedMemory | WriteAheadLog

  /** A set is named by its database file; `PathPrivacy` hashes that name without collisions. */
  type SetID = Path

  datatype DatabaseSet = DatabaseSet(
    database: Path, writeAheadLog: Option<Path>, sharedMemory: Option<Path>, logicalPath: string)

  datatype PlannedFile = PlannedFile(source: Path, setID: SetID, logicalPath: string, role: Role)

  datatype Copied = Copied(fingerprint: Fingerprint, content: seq<Byte>, cloned: bool)

  function PlannedFiles(set_: DatabaseSet): (files: seq<PlannedFile>)
    ensures files != [] && forall f :: f in files ==> f.setID == set_.database
  {
    var id, path := set_.database, set_.logicalPath;
    [PlannedFile(set_.database, id, path, Database)]
    + (match set_.writeAheadLog
       case Some(wal) => [PlannedFile(wal, id, path + "-wal", WriteAheadLog)]
       case None => [])
    + (match set_.sharedMemory
       case Some(shm) => [PlannedFile(shm, id, path + "-shm", SharedMemory)]
       case None => [])
  }

  // ----- one file -----

  /** The copy is a file that `path` led to when it was openedAt, as that file was a little later. */
  ghost predicate TakenFrom(trace: Trace, path: Path, openedAt: nat, heldAt: nat, copy: Copied) {
    openedAt < heldAt < |trace| && path in trace[openedAt].names
    && Holds(trace, heldAt, trace[openedAt].names[path], File(copy.fingerprint, copy.content, true))
  }

  /** The descriptor's file was `file` at every instant from `a` to `b`. */
  ghost predicate Constant(trace: Trace, a: nat, b: nat, node: Inode, file: File) {
    forall k :: a <= k <= b ==> Holds(trace, k, node, file)
  }

  /** The write loop: hands `part` over in as many pieces as the system wants. */
  method WriteAll(machine: Machine, part: seq<Byte>, before: seq<Byte>) returns (r: Result<seq<Byte>, IOError>)
    modifies machine`now
    ensures old(machine.now) <= machine.now
    ensures r.Ok? ==> r.value == before + part
    ensures r.Err? ==> Broken(machine.trace, old(machine.now), machine.now)
  {
    var destination := before;
    var written := 0;
    while written < |part|
      invariant 0 <= written <= |part| && old(machine.now) <= machine.now
      invariant destination == before + part[..written]
      decreases |machine.trace| - machine.now
    {
      var count := machine.Write(part[written..]);
      match count {
        case Err(Interrupted) => continue;
        case Err(e) =>
          assert !Working(machine.trace, machine.now);
          return Err(e);
        case Ok(n) =>
          assert part[..written] + part[written..][..n] == part[..written + n];
          destination := destination + part[written..][..n];
          written := written + n;
      }
    }
    return Ok(destination);
  }

  const BUFFER: nat := 128 * 1024

  /** The read loop: what it assembles is the file, if the file stood still meanwhile. */
  method CopyBytes(machine: Machine, node: Inode) returns (r: Result<seq<Byte>, IOError>)
    modifies machine`now
    ensures old(machine.now) < machine.now
    ensures r.Ok? ==> forall file :: Constant(machine.trace, old(machine.now), machine.now, node, file) ==>
      r.value == file.content
    ensures r.Err? ==> forall file :: !Steady(machine.trace, old(machine.now), machine.now, node, file)
  {
    var destination: seq<Byte> := [];
    while true
      invariant old(machine.now) <= machine.now
      invariant forall file :: Constant(machine.trace, old(machine.now), machine.now, node, file)
                  ==> |destination| <= |file.content| && destination == file.content[..|destination|]
      decreases |machine.trace| - machine.now
    {
      ghost var start := machine.now;
      var part := machine.Read(node, |destination|, BUFFER);
      match part {
        case Err(Interrupted) => continue;
        case Err(e) =>
          assert forall other :: Steady(machine.trace, old(machine.now), machine.now, node, other) ==>
                   Working(machine.trace, machine.now) && Holds(machine.trace, machine.now, node, other);
          return Err(e);
        case Ok(bytes) =>
          ghost var at := machine.now;
          ghost var file :| Holds(machine.trace, at, node, file) && Slice(file, |destination|, bytes);
          if bytes == [] {
            forall other | Constant(machine.trace, old(machine.now), at, node, other)
              ensures destination == other.content
            {
              assert Holds(machine.trace, at, node, other);
              assert Constant(machine.trace, old(machine.now), start, node, other);
            }
            return Ok(destination);
          }
          var extended := WriteAll(machine, bytes, destination);
          if extended.Err? {
            return Err(extended.error);
          }
          forall other | Constant(machine.trace, old(machine.now), machine.now, node, other)
            ensures |extended.value| <= |other.content| && extended.value == other.content[..|extended.value|]
          {
            assert Holds(machine.trace, at, node, other);
            assert Constant(machine.trace, old(machine.now), start, node, other);
          }
          destination := extended.value;
      }
    }
  }

  lemma AtTheEnd(trace: Trace, a: nat, b: nat, n: Inode)
    requires a < b
    ensures forall file :: Steady(trace, a, b, n, file) ==> Working(trace, b) && Holds(trace, b, n, file)
  {
  }

  lemma ChangedIsUnsteady(trace: Trace, a: nat, b: nat, c: nat, n: Inode, before: Fingerprint, after: Fingerprint)
    requires a < b <= c && before != after
    requires exists file :: Holds(trace, b, n, file) && file.fingerprint == before
    requires exists file :: Holds(trace, c, n, file) && file.fingerprint == after
    ensures forall file :: !Steady(trace, a, c, n, file)
  {
    assert forall file :: Steady(trace, a, c, n, file) ==> Holds(trace, b, n, file) && Holds(trace, c, n, file);
  }

  /** Copies the file that its name opens; while nothing happens to it, this cannot fail. */
  method CloneOrCopy(machine: Machine, path: Path, allowClone: bool)
    returns (r: Result<Copied, IOError>, ghost openedAt: nat, ghost heldAt: nat)
    requires Honest(machine.trace)
    modifies machine`now
    ensures old(machine.now) < machine.now
    ensures r.Ok? ==>
      old(machine.now) < openedAt < heldAt < machine.now && TakenFrom(machine.trace, path, openedAt, heldAt, r.value)
    ensures r.Err? ==> !PathCalm(machine.trace, old(machine.now), machine.now, path)
  {
    openedAt, heldAt := 0, 0;
    var descriptor := machine.Open(path);
    if descriptor.Err? {
      assert forall file :: Calm(machine.trace, old(machine.now), machine.now, path, file) ==>
               Working(machine.trace, machine.now) && Shows(machine.trace, machine.now, path, file);
      return Err(descriptor.error), openedAt, heldAt;
    }
    openedAt := machine.now;
    r, heldAt := CopyOpened(machine, descriptor.value, path, allowClone);
    CalmDescriptor(machine.trace, old(machine.now), openedAt, machine.now, path, descriptor.value);
    SteadySince(machine.trace, old(machine.now), openedAt, machine.now, descriptor.value);
  }

  lemma SteadySince(trace: Trace, a: nat, b: nat, c: nat, n: Inode)
    requires a <= b
    ensures forall file :: Steady(trace, a, c, n, file) ==> Steady(trace, b, c, n, file)
  {
  }

  /** The same from the descriptor on. */
  method CopyOpened(machine: Machine, node: Inode, path: Path, allowClone: bool)
    returns (r: Result<Copied, IOError>, ghost heldAt: nat)
    requires Honest(machine.trace)
    modifies machine`now
    ensures old(machine.now) < machine.now
    ensures r.Ok? ==> old(machine.now) < heldAt < machine.now && heldAt < |machine.trace|
    ensures r.Ok? ==> Holds(machine.trace, heldAt, node, File(r.value.fingerprint, r.value.content, true))
    ensures r.Err? ==> forall file :: !Steady(machine.trace, old(machine.now), machine.now, node, file)
  {
    heldAt := 0;
    ghost var opening := machine.now;
    var before := machine.DescriptorStat(node);
    if before.Err? {
      AtTheEnd(machine.trace, opening, machine.now, node);
      return Err(before.error), heldAt;
    }
    heldAt := machine.now;
    ghost var file :| Holds(machine.trace, heldAt, node, file) && file.fingerprint == before.value && file.regular;

    if allowClone {
      var clone := machine.Clone(node);
      match clone {
        case Cloned(content) =>
          ghost var at := machine.now;
          var after := machine.DescriptorStat(node);
          if after.Err? {
            AtTheEnd(machine.trace, opening, machine.now, node);
            return Err(after.error), heldAt;
          }
          if before.value != after.value {
            ChangedIsUnsteady(machine.trace, opening, heldAt, machine.now, node, before.value, after.value);
            return Err(SourceChanged(path)), heldAt;
          }
          ghost var last :| Holds(machine.trace, machine.now, node, last) && last.fingerprint == after.value;
          FileStable(machine.trace, heldAt, machine.now, node, file, last, at);
          return Ok(Copied(before.value, content, true)), heldAt;
        case Refused(e) =>
          AtTheEnd(machine.trace, opening, machine.now, node);
          return Err(e), heldAt;
        case Unsupported =>
      }
    }

    ghost var start := machine.now;
    var content := CopyBytes(machine, node);
    if content.Err? {
      SteadySince(machine.trace, opening, start, machine.now, node);
      return Err(content.error), heldAt;
    }
    ghost var finished := machine.now;
    var after := machine.DescriptorStat(node);
    if after.Err? {
      AtTheEnd(machine.trace, opening, machine.now, node);
      return Err(after.error), heldAt;
    }
    if before.value != after.value {
      ChangedIsUnsteady(machine.trace, opening, heldAt, machine.now, node, before.value, after.value);
      return Err(SourceChanged(path)), heldAt;
    }
    ghost var last :| Holds(machine.trace, machine.now, node, last) && last.fingerprint == after.value;
    forall k | start <= k <= finished
      ensures Holds(machine.trace, k, node, file)
    {
      FileStable(machine.trace, heldAt, machine.now, node, file, last, k);
    }
    assert Constant(machine.trace, start, finished, node, file);
    return Ok(Copied(before.value, content.value, false)), heldAt;
  }

  // ----- one database set -----

  datatype Capture = Capture(file: PlannedFile, copy: Copied)
  {
    function AsFile(): File {
      File(copy.fingerprint, copy.content, true)
    }
  }

  /** At instant `k` the source held every captured file with the captured content. */
  ghost predicate HeldTogether(trace: Trace, k: nat, captures: seq<Capture>) {
    forall i :: 0 <= i < |captures| ==> Shows(trace, k, captures[i].file.source, captures[i].AsFile())
  }

  ghost predicate SeenBetween(trace: Trace, a: nat, b: nat, path: Path, fingerprint: Fingerprint) {
    exists k, file :: a < k <= b && Shows(trace, k, path, file) && file.fingerprint == fingerprint && file.regular
  }

  ghost predicate AbsentBetween(trace: Trace, a: nat, b: nat, path: Path) {
    exists k :: a < k <= b && Absent(trace, k, path)
  }

  ghost predicate Baselined(trace: Trace, a: nat, b: nat, files: seq<PlannedFile>, baseline: map<Path, Fingerprint>) {
    forall i :: 0 <= i < |files| ==>
      files[i].source in baseline && SeenBetween(trace, a, b, files[i].source, baseline[files[i].source])
  }

  /** A name seen before and a copy taken after with the same fingerprint: nothing changed in between. */
  lemma UnchangedUntilOpened(trace: Trace, a: nat, b: nat, path: Path, openedAt: nat, heldAt: nat, copy: Copied, k: nat)
    requires Honest(trace) && SeenBetween(trace, a, b, path, copy.fingerprint)
    requires TakenFrom(trace, path, openedAt, heldAt, copy) && b <= k <= openedAt
    ensures Shows(trace, k, path, File(copy.fingerprint, copy.content, true))
  {
    var t, seen :| a < t <= b && Shows(trace, t, path, seen) && seen.fingerprint == copy.fingerprint && seen.regular;
    var file := File(copy.fingerprint, copy.content, true);
    var node := trace[openedAt].names[path];
    assert Labelled(trace[t]) && Labelled(trace[heldAt]);
    FileStable(trace, t, heldAt, node, seen, file, openedAt);
    assert Shows(trace, openedAt, path, seen);
    NameStable(trace, t, openedAt, path, seen, seen, k);
  }

  ghost predicate FilesCalm(trace: Trace, a: nat, b: nat, files: seq<PlannedFile>) {
    forall i :: 0 <= i < |files| ==> PathCalm(trace, a, b, files[i].source)
  }

  /** Looked up at its end, a calm name shows its file. */
  lemma CalmIsShown(trace: Trace, a: nat, b: nat, path: Path)
    requires a < b && PathCalm(trace, a, b, path)
    ensures Working(trace, b) && !Absent(trace, b, path)
    ensures forall file :: Shows(trace, b, path, file) ==> file.regular
  {
    var file :| Calm(trace, a, b, path, file);
    assert Working(trace, b) && Shows(trace, b, path, file);
  }

  method ReadBaseline(machine: Machine, files: seq<PlannedFile>) returns (r: Result<map<Path, Fingerprint>, IOError>)
    modifies machine`now
    ensures old(machine.now) <= machine.now
    ensures r.Ok? ==> Baselined(machine.trace, old(machine.now), machine.now, files, r.value)
    ensures r.Err? ==> !FilesCalm(machine.trace, old(machine.now), machine.now, files)
  {
    var baseline := map[];
    for i := 0 to |files|
      invariant old(machine.now) <= machine.now
      invariant Baselined(machine.trace, old(machine.now), machine.now, files[..i], baseline)
    {
      ghost var before := machine.now;
      var fingerprint := machine.Stat(files[i].source);
      if fingerprint.Err? {
        if PathCalm(machine.trace, old(machine.now), machine.now, files[i].source) {
          CalmIsShown(machine.trace, old(machine.now), machine.now, files[i].source);
        }
        return Err(fingerprint.error);
      }
      forall j | 0 <= j < i
        ensures SeenBetween(machine.trace, old(machine.now), machine.now, files[j].source, baseline[files[j].source])
      {
        assert files[..i][j] == files[j];
        assert SeenBetween(machine.trace, old(machine.now), before, files[..i][j].source,
                           baseline[files[..i][j].source]);
      }
      assert SeenBetween(machine.trace, old(machine.now), machine.now, files[i].source, fingerprint.value);
      baseline := baseline[files[i].source := fingerprint.value];
    }
    assert files[..|files|] == files;
    return Ok(baseline);
  }

  /** Copies made in order, each opened after `from` and matching the baseline. */
  ghost predicate CopiedSince(trace: Trace, from: nat, files: seq<PlannedFile>, captures: seq<Capture>,
                              opens: seq<nat>, baseline: map<Path, Fingerprint>) {
    |opens| == |captures| <= |files|
    && (forall i :: 0 <= i < |captures| ==>
          captures[i].file == files[i] && from < opens[0] <= opens[i]
          && files[i].source in baseline && baseline[files[i].source] == captures[i].copy.fingerprint)
    && forall i :: 0 <= i < |captures| ==> Taken(trace, files[i].source, opens[i], captures[i].copy)
  }

  ghost predicate Taken(trace: Trace, path: Path, openedAt: nat, copy: Copied) {
    exists heldAt :: TakenFrom(trace, path, openedAt, heldAt, copy)
  }

  /** A copy of a calm file has the fingerprint that was looked up before. */
  lemma CalmCopy(trace: Trace, a: nat, b: nat, c: nat, path: Path, openedAt: nat, heldAt: nat, copy: Copied,
                 baseline: Fingerprint)
    requires WellFormed(trace) && a <= b <= openedAt && heldAt < c
    requires SeenBetween(trace, a, b, path, baseline) && TakenFrom(trace, path, openedAt, heldAt, copy)
    requires PathCalm(trace, a, c, path) && a < openedAt
    ensures copy.fingerprint == baseline
  {
    var file :| Calm(trace, a, c, path, file);
    var t, seen :| a < t <= b && Shows(trace, t, path, seen) && seen.fingerprint == baseline && seen.regular;
    CalmDescriptor(trace, a, openedAt, c, path, trace[openedAt].names[path]);
    assert Shows(trace, t, path, file) && Holds(trace, heldAt, trace[openedAt].names[path], file);
  }

  lemma CopiedNext(trace: Trace, from: nat, files: seq<PlannedFile>, captures: seq<Capture>, opens: seq<nat>,
                   baseline: map<Path, Fingerprint>, openedAt: nat, copy: Copied)
    requires CopiedSince(trace, from, files, captures, opens, baseline) && |captures| < |files| && from < openedAt
    requires opens != [] ==> opens[0] <= openedAt
    requires Taken(trace, files[|captures|].source, openedAt, copy)
    requires files[|captures|].source in baseline && baseline[files[|captures|].source] == copy.fingerprint
    ensures CopiedSince(trace, from, files, captures + [Capture(files[|captures|], copy)], opens + [openedAt], baseline)
  {
  }

  lemma CopyFailed(trace: Trace, a: nat, b: nat, c: nat, files: seq<PlannedFile>, i: nat)
    requires a <= b && i < |files| && !PathCalm(trace, b, c, files[i].source)
    ensures !FilesCalm(trace, a, c, files)
  {
    if PathCalm(trace, a, c, files[i].source) {
      CalmWithin(trace, a, b, c, c, files[i].source);
    }
  }

  lemma CopyDiffers(trace: Trace, a: nat, b: nat, c: nat, files: seq<PlannedFile>, i: nat, openedAt: nat, heldAt: nat,
                    copy: Copied, baseline: Fingerprint)
    requires WellFormed(trace) && a <= b < openedAt && heldAt < c && i < |files| && copy.fingerprint != baseline
    requires SeenBetween(trace, a, b, files[i].source, baseline)
      && TakenFrom(trace, files[i].source, openedAt, heldAt, copy)
    ensures !FilesCalm(trace, a, c, files)
  {
    if PathCalm(trace, a, c, files[i].source) {
      CalmCopy(trace, a, b, c, files[i].source, openedAt, heldAt, copy, baseline);
    }
  }

  method CopyFiles(machine: Machine, files: seq<PlannedFile>, baseline: map<Path, Fingerprint>, allowClone: bool,
                   ghost start: nat)
    returns (r: Result<seq<Capture>, IOError>, ghost opens: seq<nat>)
    requires Honest(machine.trace)
    requires start <= machine.now && Baselined(machine.trace, start, machine.now, files, baseline)
    modifies machine`now
    ensures old(machine.now) <= machine.now
    ensures r.Ok? ==>
      |r.value| == |files| && CopiedSince(machine.trace, old(machine.now), files, r.value, opens, baseline)
    ensures r.Ok? && files != [] ==> opens[0] < machine.now
    ensures r.Err? ==> !FilesCalm(machine.trace, start, machine.now, files)
  {
    var captures: seq<Capture> := [];
    opens := [];
    for i := 0 to |files|
      invariant old(machine.now) <= machine.now && |captures| == i
      invariant CopiedSince(machine.trace, old(machine.now), files, captures, opens, baseline)
      invariant opens != [] ==> opens[0] < machine.now
    {
      ghost var before := machine.now;
      var copy, openedAt, heldAt := CloneOrCopy(machine, files[i].source, allowClone);
      if copy.Err? {
        CopyFailed(machine.trace, start, before, machine.now, files, i);
        return Err(copy.error), opens;
      }
      if copy.value.fingerprint != baseline[files[i].source] {
        CopyDiffers(machine.trace, start, old(machine.now), machine.now, files, i, openedAt, heldAt, copy.value,
                    baseline[files[i].source]);
        return Err(SourceChanged(files[i].source)), opens;
      }
      assert Taken(machine.trace, files[i].source, openedAt, copy.value);
      CopiedNext(machine.trace, old(machine.now), files, captures, opens, baseline, openedAt, copy.value);
      captures := captures + [Capture(files[i], copy.value)];
      opens := opens + [openedAt];
    }
    return Ok(captures), opens;
  }

  /** The files whose names are looked up again after copying. */
  function NeedingGroupStability(captures: seq<Capture>): (r: seq<Capture>)
    ensures forall c ::
      c in r <==> c in captures && ((exists d :: d in captures && !d.copy.cloned) || c.file.role == Database)
  {
    if forall c :: c in captures ==> c.copy.cloned then Databases(captures) else captures
  }

  function Databases(captures: seq<Capture>): (r: seq<Capture>)
    ensures forall c :: c in r <==> c in captures && c.file.role == Database
  {
    if captures == [] then []
    else (if captures[0].file.role == Database then [captures[0]] else []) + Databases(captures[1..])
  }

  lemma CalmLooksTheSame(trace: Trace, a: nat, b: nat, c: nat, path: Path, before: Fingerprint, after: Fingerprint)
    requires a <= b < c && PathCalm(trace, a, c, path) && SeenBetween(trace, a, b, path, before)
    requires exists file :: Shows(trace, c, path, file) && file.fingerprint == after
    ensures before == after
  {
    var file :| Calm(trace, a, c, path, file);
    var t, seen :| a < t <= b && Shows(trace, t, path, seen) && seen.fingerprint == before && seen.regular;
    assert Shows(trace, t, path, file) && Shows(trace, c, path, file);
  }

  method CheckGroup(machine: Machine, group: seq<Capture>, baseline: map<Path, Fingerprint>, ghost start: nat,
                    ghost settled: nat)
    returns (r: Result<(), IOError>)
    requires start <= settled <= machine.now
    requires forall c :: c in group ==>
      c.file.source in baseline
      && SeenBetween(machine.trace, start, settled, c.file.source, baseline[c.file.source])
    modifies machine`now
    ensures old(machine.now) <= machine.now
    ensures r.Ok? ==> forall c :: c in group ==>
      SeenBetween(machine.trace, old(machine.now), machine.now, c.file.source, baseline[c.file.source])
    ensures r.Err? ==> exists c :: c in group && !PathCalm(machine.trace, start, machine.now, c.file.source)
  {
    for i := 0 to |group|
      invariant old(machine.now) <= machine.now
      invariant forall j :: 0 <= j < i ==>
        SeenBetween(machine.trace, old(machine.now), machine.now, group[j].file.source, baseline[group[j].file.source])
    {
      ghost var before := machine.now;
      var after := machine.Stat(group[i].file.source);
      assert group[i] in group;
      if after.Err? {
        if PathCalm(machine.trace, start, machine.now, group[i].file.source) {
          CalmIsShown(machine.trace, start, machine.now, group[i].file.source);
        }
        return Err(after.error);
      }
      if after.value != baseline[group[i].file.source] {
        if PathCalm(machine.trace, start, machine.now, group[i].file.source) {
          CalmLooksTheSame(machine.trace, start, settled, machine.now, group[i].file.source,
                           baseline[group[i].file.source], after.value);
        }
        return Err(SourceChanged(group[i].file.source));
      }
      forall j | 0 <= j < i
        ensures SeenBetween(machine.trace, old(machine.now), machine.now, group[j].file.source,
                            baseline[group[j].file.source])
      {
        assert SeenBetween(machine.trace, old(machine.now), before, group[j].file.source,
                           baseline[group[j].file.source]);
      }
    }
    return Ok(());
  }

  /** Every file of the set held its captured content from `settled` to `until`. */
  ghost predicate PointInTime(trace: Trace, captures: seq<Capture>, settled: nat, until: nat) {
    forall k :: settled <= k <= until ==> HeldTogether(trace, k, captures)
  }

  /** Files looked up again afterwards held their content during the whole copying. */
  ghost predicate StableGroup(trace: Trace, captures: seq<Capture>, settled: nat, until: nat) {
    forall k, c :: settled <= k <= until && c in NeedingGroupStability(captures) ==>
      Shows(trace, k, c.file.source, c.AsFile())
  }

  /** Exactly one captured file has this role, and it is the one of this name. */
  ghost predicate OneFileOf(captures: seq<Capture>, role: Role, source: Path, logicalPath: string) {
    exists i :: 0 <= i < |captures| && captures[i].file.role == role && captures[i].file.source == source
      && captures[i].file.logicalPath == logicalPath
      && forall j :: 0 <= j < |captures| && j != i ==> captures[j].file.role != role
  }

  ghost predicate FileIfThere(captures: seq<Capture>, role: Role, source: Option<Path>, logicalPath: string) {
    if source.Some? then OneFileOf(captures, role, source.value, logicalPath)
    else forall c :: c in captures ==> c.file.role != role
  }

  /** Captured are the database and, as far as the set has them, the write-ahead log and the shared memory. */
  ghost predicate AreFilesOf(captures: seq<Capture>, set_: DatabaseSet) {
    && OneFileOf(captures, Database, set_.database, set_.logicalPath)
    && FileIfThere(captures, WriteAheadLog, set_.writeAheadLog, set_.logicalPath + "-wal")
    && FileIfThere(captures, SharedMemory, set_.sharedMemory, set_.logicalPath + "-shm")
    && forall c :: c in captures ==> c.file.setID == set_.database
  }

  lemma PlannedAreFiles(captures: seq<Capture>, set_: DatabaseSet)
    requires |captures| == |PlannedFiles(set_)|
    requires forall i :: 0 <= i < |captures| ==> captures[i].file == PlannedFiles(set_)[i]
    ensures AreFilesOf(captures, set_)
  {
    var wal := if set_.writeAheadLog.Some? then 1 else 0;
    var last := |captures| - 1;
    assert OneFileOf(captures, Database, set_.database, set_.logicalPath) by {
      assert captures[0].file.role == Database;
    }
    if set_.writeAheadLog.Some? {
      assert captures[1].file == PlannedFiles(set_)[1];
    }
    if set_.sharedMemory.Some? {
      assert captures[last].file == PlannedFiles(set_)[last];
    }
    forall c | c in captures
      ensures c.file.setID == set_.database
    {
      var i :| 0 <= i < |captures| && captures[i] == c;
      assert PlannedFiles(set_)[i] in PlannedFiles(set_);
    }
  }

  /** What a finished capture of a set guarantees about the source. */
  ghost predicate Captured(trace: Trace, set_: DatabaseSet, captures: seq<Capture>, settled: nat, opening: nat,
                           copied: nat) {
    && AreFilesOf(captures, set_)
    && settled < opening < copied
    && PointInTime(trace, captures, settled, opening)
    && StableGroup(trace, captures, settled, copied)
  }

  /** Throughout (a, b] nothing happened to the files of the set, and no call had a reason to fail. */
  ghost predicate SetCalm(trace: Trace, a: nat, b: nat, set_: DatabaseSet) {
    && PathCalm(trace, a, b, set_.database)
    && (set_.writeAheadLog.Some? ==> PathCalm(trace, a, b, set_.writeAheadLog.value))
    && (set_.sharedMemory.Some? ==> PathCalm(trace, a, b, set_.sharedMemory.value))
  }

  lemma CalmSetHasCalmFiles(trace: Trace, a: nat, b: nat, c: nat, set_: DatabaseSet)
    requires b <= c && SetCalm(trace, a, c, set_)
    ensures FilesCalm(trace, a, b, PlannedFiles(set_))
  {
    CalmWithin(trace, a, a, b, c, set_.database);
    if set_.writeAheadLog.Some? {
      CalmWithin(trace, a, a, b, c, set_.writeAheadLog.value);
    }
    if set_.sharedMemory.Some? {
      CalmWithin(trace, a, a, b, c, set_.sharedMemory.value);
    }
  }

  /**
    Captures one database set. Whatever the writer does meanwhile, a finished
    capture is what the source held at one instant: at every instant from the
    last baseline lookup until the first file is opened. It is finished unless
    something happened to these files.
   */
  method CaptureSet(machine: Machine, set_: DatabaseSet, allowClone: bool)
    returns (r: Result<seq<Capture>, IOError>, ghost settled: nat, ghost opening: nat, ghost copied: nat)
    requires Honest(machine.trace)
    modifies machine`now
    ensures old(machine.now) <= machine.now
    ensures r.Ok? ==> old(machine.now) < settled && copied <= machine.now
                      && Captured(machine.trace, set_, r.value, settled, opening, copied)
    ensures r.Err? ==> !SetCalm(machine.trace, old(machine.now), machine.now, set_)
  {
    settled, opening, copied := 0, 0, 0;
    ghost var start := machine.now;
    var files := PlannedFiles(set_);
    var baseline := ReadBaseline(machine, files);
    if baseline.Err? {
      if SetCalm(machine.trace, start, machine.now, set_) {
        CalmSetHasCalmFiles(machine.trace, start, machine.now, machine.now, set_);
      }
      return Err(baseline.error), settled, opening, copied;
    }
    settled := machine.now;
    var captures, opens := CopyFiles(machine, files, baseline.value, allowClone, start);
    if captures.Err? {
      if SetCalm(machine.trace, start, machine.now, set_) {
        CalmSetHasCalmFiles(machine.trace, start, machine.now, machine.now, set_);
      }
      return Err(captures.error), settled, opening, copied;
    }
    opening, copied := opens[0], machine.now;
    GroupIsPlanned(machine.trace, start, settled, files, captures.value, baseline.value);
    var checked := CheckGroup(machine, NeedingGroupStability(captures.value), baseline.value, start, settled);
    if checked.Err? {
      if SetCalm(machine.trace, start, machine.now, set_) {
        CalmSetHasCalmFiles(machine.trace, start, machine.now, machine.now, set_);
      }
      return Err(checked.error), settled, opening, copied;
    }
    CapturedHolds(machine.trace, old(machine.now), settled, copied, machine.now, set_, baseline.value, captures.value,
                  opens);
    return captures, settled, opening, copied;
  }

  lemma GroupIsPlanned(trace: Trace, a: nat, b: nat, files: seq<PlannedFile>, captures: seq<Capture>,
                       baseline: map<Path, Fingerprint>)
    requires |captures| == |files| && forall i :: 0 <= i < |captures| ==> captures[i].file == files[i]
    requires Baselined(trace, a, b, files, baseline)
    ensures forall c :: c in NeedingGroupStability(captures) ==>
      c.file in files && c.file.source in baseline && SeenBetween(trace, a, b, c.file.source, baseline[c.file.source])
  {
    forall c | c in captures
      ensures c.file in files && c.file.source in baseline
      ensures SeenBetween(trace, a, b, c.file.source, baseline[c.file.source])
    {
      var i :| 0 <= i < |captures| && captures[i] == c;
      assert files[i] in files;
    }
  }

  lemma CapturedHolds(trace: Trace, start: nat, settled: nat, copied: nat, end: nat, set_: DatabaseSet,
                      baseline: map<Path, Fingerprint>, captures: seq<Capture>, opens: seq<nat>)
    requires Honest(trace) && |captures| == |PlannedFiles(set_)|
    requires Baselined(trace, start, settled, PlannedFiles(set_), baseline)
    requires CopiedSince(trace, settled, PlannedFiles(set_), captures, opens, baseline)
    requires opens[0] < copied
    requires forall c :: c in NeedingGroupStability(captures) ==>
      c.file.source in baseline && SeenBetween(trace, copied, end, c.file.source, baseline[c.file.source])
    ensures Captured(trace, set_, captures, settled, opens[0], copied)
  {
    var files := PlannedFiles(set_);
    PlannedAreFiles(captures, set_);
    forall k, i | settled <= k <= opens[0] && 0 <= i < |captures|
      ensures Shows(trace, k, captures[i].file.source, captures[i].AsFile())
    {
      assert Taken(trace, files[i].source, opens[i], captures[i].copy);
      var heldAt :| TakenFrom(trace, files[i].source, opens[i], heldAt, captures[i].copy);
      UnchangedUntilOpened(trace, start, settled, files[i].source, opens[i], heldAt, captures[i].copy, k);
    }
    forall k, c | settled <= k <= copied && c in NeedingGroupStability(captures)
      ensures Shows(trace, k, c.file.source, c.AsFile())
    {
      var i :| 0 <= i < |captures| && captures[i] == c;
      var t, last :| copied < t <= end && Shows(trace, t, c.file.source, last)
                     && last.fingerprint == baseline[c.file.source] && last.regular;
      assert HeldTogether(trace, settled, captures);
      NameStable(trace, settled, t, c.file.source, c.AsFile(), last, k);
    }
  }
}
