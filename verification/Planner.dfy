/**
  The incremental acquisition planner: which sets to read again, and which
  content digests may be carried over from an earlier manifest
  (Sources/GreenBubblesCore/SnapshotAcquisitionPlanner.swift).

  File lists sorted by role without repeats are maps by role, set lists sorted
  by identity without repeats are maps by identity.
 */
module Planner {
  import opened Wrappers
  import opened Volume
  import opened Snapshot

  datatype FileInventory = FileInventory(fingerprint: Fingerprint, digest: Option<Digest>)

  datatype SetInventory = SetInventory(setID: SetID, logicalPath: string, files: map<Role, FileInventory>)

  type Inventory = map<SetID, SetInventory>

  datatype Mode = Bootstrap | Incremental | IntegrityScan

  datatype Evidence = Evidence(
    mode: Mode, changed: set<SetID>, reconciliation: set<SetID>, deleted: set<SetID>,
    sourceSets: Inventory, lastIntegrityScanAt: Option<real>)

  datatype Entry = Entry(sourceSetID: SetID, logicalPath: string, role: Role, fingerprint: Fingerprint, sha256: Digest)

  datatype Manifest = Manifest(
    createdAt: real, accountBinding: Option<string>, acquisition: Option<Evidence>, entries: seq<Entry>)

  datatype Plan = Plan(evidence: Evidence, accountBinding: string, selectedSets: seq<DatabaseSet>,
                       allSets: seq<DatabaseSet>)

  datatype PlannerError =
    | NoDatabaseSets
    | InvalidReconciliationWindow
    | InvalidIntegrityScanInterval
    | UnsafeSource(path: Path)
    | InventoryChanged(setID: SetID)
    | PreviousAccountBindingMissing
    | AccountBindingChanged
    | Reading(error: IOError)

  // ----- reading an inventory -----

  function PathOf(database: Path, role: Role): Path {
    match role
    case Database => database
    case WriteAheadLog => database + "-wal"
    case SharedMemory => database + "-shm"
  }

  /** The digest an earlier inventory recorded for this file under this very fingerprint. */
  function Carried(previous: Inventory, id: SetID, role: Role, fingerprint: Fingerprint): Option<Digest> {
    if id in previous && role in previous[id].files && previous[id].files[role].fingerprint == fingerprint
    then previous[id].files[role].digest
    else None
  }

  /** Every fingerprint of the inventory was looked up in (a, b], and digests were only carried. */
  ghost predicate ReadBetween(trace: Trace, a: nat, b: nat, set_: DatabaseSet, previous: Inventory,
                              inventory: SetInventory) {
    inventory.setID == set_.database && inventory.logicalPath == set_.logicalPath && Database in inventory.files
    && FilesReadBetween(trace, a, b, set_.database, previous, inventory.files)
    && OthersAbsent(trace, a, b, set_.database, inventory.files.Keys)
  }

  /** The optional files not found were looked for in (a, b] and not there. */
  ghost predicate OthersAbsent(trace: Trace, a: nat, b: nat, database: Path, roles: set<Role>) {
    forall role: Role :: role !in roles && role != Database ==> AbsentBetween(trace, a, b, PathOf(database, role))
  }

  ghost predicate FilesReadBetween(trace: Trace, a: nat, b: nat, database: Path, previous: Inventory, files: map<Role,
                                   FileInventory>) {
    forall role :: role in files ==>
      SeenBetween(trace, a, b, PathOf(database, role), files[role].fingerprint)
      && files[role].digest == Carried(previous, database, role, files[role].fingerprint)
  }

  /** Throughout (a, b] the database stays what it is, and so does each of the files beside it or there is none. */
  ghost predicate Readable(trace: Trace, a: nat, b: nat, database: Path) {
    && PathCalm(trace, a, b, database)
    && (PathCalm(trace, a, b, database + "-wal") || PathGone(trace, a, b, database + "-wal"))
    && (PathCalm(trace, a, b, database + "-shm") || PathGone(trace, a, b, database + "-shm"))
  }

  lemma ReadableFile(trace: Trace, a: nat, b: nat, database: Path, role: Role)
    requires Readable(trace, a, b, database)
    ensures PathCalm(trace, a, b, PathOf(database, role))
            || (role != Database && PathGone(trace, a, b, PathOf(database, role)))
  {
  }

  /** Looking a readable name up either finds its file or finds nothing. */
  lemma ReadableIsFound(trace: Trace, a: nat, b: nat, database: Path, role: Role)
    requires a < b && Readable(trace, a, b, database)
    ensures Working(trace, b) && forall file :: Shows(trace, b, PathOf(database, role), file) ==> file.regular
    ensures role == Database ==> !Absent(trace, b, PathOf(database, role))
  {
    ReadableFile(trace, a, b, database, role);
    if PathCalm(trace, a, b, PathOf(database, role)) {
      CalmIsShown(trace, a, b, PathOf(database, role));
    } else {
      assert Working(trace, b) && Absent(trace, b, PathOf(database, role));
    }
  }

  /** What was there once and is readable is there. */
  lemma ReadableStays(trace: Trace, a: nat, k: nat, b: nat, database: Path, role: Role)
    requires a < k < b && Readable(trace, a, b, database) && !Absent(trace, k, PathOf(database, role))
    ensures !Absent(trace, b, PathOf(database, role))
  {
    ReadableFile(trace, a, b, database, role);
    if PathCalm(trace, a, b, PathOf(database, role)) {
      CalmIsShown(trace, a, b, PathOf(database, role));
    }
  }

  ghost predicate FoundBetween(trace: Trace, a: nat, b: nat, path: Path) {
    exists k: nat :: a < k <= b && k < |trace| && !Absent(trace, k, path)
  }

  method CurrentFiles(machine: Machine, database: Path) returns (r: Result<seq<Role>, PlannerError>)
    modifies machine`now
    ensures old(machine.now) <= machine.now
    ensures r.Ok? ==> Database in r.value
    ensures r.Ok? ==> OthersAbsent(machine.trace, old(machine.now), machine.now, database, set role | role in r.value)
    ensures r.Ok? ==> forall role :: role in r.value && role != Database ==>
      FoundBetween(machine.trace, old(machine.now), machine.now, PathOf(database, role))
    ensures r.Err? ==> !Readable(machine.trace, old(machine.now), machine.now, database)
  {
    var roles := [Database];
    var optional := [WriteAheadLog, SharedMemory];
    for i := 0 to 2
      invariant old(machine.now) <= machine.now && Database in roles
      invariant forall j :: 0 <= j < i && optional[j] !in roles ==>
        AbsentBetween(machine.trace, old(machine.now), machine.now, PathOf(database, optional[j]))
      invariant forall role :: role in roles && role != Database ==>
        FoundBetween(machine.trace, old(machine.now), machine.now, PathOf(database, role))
    {
      ghost var before := machine.now;
      var found := machine.Stat(PathOf(database, optional[i]));
      match found {
        case Ok(_) =>
          FoundLonger(machine.trace, old(machine.now), before, machine.now, database, roles);
          assert !Absent(machine.trace, machine.now, PathOf(database, optional[i]));
          roles := roles + [optional[i]];
        case Err(NotFound) =>
          assert Absent(machine.trace, machine.now, PathOf(database, optional[i]));
          FoundLonger(machine.trace, old(machine.now), before, machine.now, database, roles);
        case Err(_) =>
          if Readable(machine.trace, old(machine.now), machine.now, database) {
            ReadableIsFound(machine.trace, old(machine.now), machine.now, database, optional[i]);
          }
          return Err(UnsafeSource(PathOf(database, optional[i])));
      }
      forall j | 0 <= j < i && optional[j] !in roles
        ensures AbsentBetween(machine.trace, old(machine.now), machine.now, PathOf(database, optional[j]))
      {
        assert AbsentBetween(machine.trace, old(machine.now), before, PathOf(database, optional[j]));
      }
    }
    assert optional[0] == WriteAheadLog && optional[1] == SharedMemory;
    return Ok(roles);
  }

  lemma FoundLonger(trace: Trace, a: nat, b: nat, c: nat, database: Path, roles: seq<Role>)
    requires b <= c
    requires forall role :: role in roles && role != Database ==> FoundBetween(trace, a, b, PathOf(database, role))
    ensures forall role :: role in roles && role != Database ==> FoundBetween(trace, a, c, PathOf(database, role))
  {
  }

  method ReadInventory(machine: Machine, set_: DatabaseSet, previous: Inventory)
    returns (r: Result<SetInventory, PlannerError>)
    modifies machine`now
    ensures old(machine.now) <= machine.now
    ensures r.Ok? ==> ReadBetween(machine.trace, old(machine.now), machine.now, set_, previous, r.value)
    ensures r.Err? ==> !Readable(machine.trace, old(machine.now), machine.now, set_.database)
  {
    var discovered := CurrentFiles(machine, set_.database);
    if discovered.Err? {
      return Err(discovered.error);
    }
    var roles := discovered.value;
    ghost var looked := machine.now;
    var files: map<Role, FileInventory> := map[];
    for i := 0 to |roles|
      invariant old(machine.now) <= looked <= machine.now
      invariant forall j :: 0 <= j < i ==> roles[j] in files
      invariant forall role :: role in files ==> role in roles
      invariant FilesReadBetween(machine.trace, old(machine.now), machine.now, set_.database, previous, files)
    {
      ghost var before := machine.now;
      var path := PathOf(set_.database, roles[i]);
      var fingerprint := machine.Stat(path);
      if fingerprint.Err? {
        if Readable(machine.trace, old(machine.now), machine.now, set_.database) {
          FoundIsRead(machine.trace, old(machine.now), looked, machine.now, set_.database, roles[i]);
        }
        return Err(UnsafeSource(path));
      }
      SeenLonger(machine.trace, old(machine.now), before, machine.now, set_.database, previous, files);
      assert SeenBetween(machine.trace, old(machine.now), machine.now, path, fingerprint.value);
      var digest := Carried(previous, set_.database, roles[i], fingerprint.value);
      files := files[roles[i] := FileInventory(fingerprint.value, digest)];
    }
    assert files.Keys == set role | role in roles;
    AbsentLonger(machine.trace, old(machine.now), old(machine.now), looked, machine.now, set_.database, files.Keys);
    return Ok(SetInventory(set_.database, set_.logicalPath, files));
  }

  lemma FoundIsRead(trace: Trace, a: nat, b: nat, c: nat, database: Path, role: Role)
    requires a <= b < c && Readable(trace, a, c, database)
    requires role != Database ==> FoundBetween(trace, a, b, PathOf(database, role))
    ensures Working(trace, c) && !Absent(trace, c, PathOf(database, role))
    ensures forall file :: Shows(trace, c, PathOf(database, role), file) ==> file.regular
  {
    ReadableIsFound(trace, a, c, database, role);
    if role != Database {
      var k: nat :| a < k <= b && k < |trace| && !Absent(trace, k, PathOf(database, role));
      ReadableStays(trace, a, k, c, database, role);
    }
  }

  lemma AbsentLonger(trace: Trace, a: nat, b: nat, c: nat, d: nat, database: Path, roles: set<Role>)
    requires OthersAbsent(trace, b, c, database, roles) && a <= b && c <= d
    ensures OthersAbsent(trace, a, d, database, roles)
  {
    forall role: Role | role !in roles && role != Database
      ensures AbsentBetween(trace, a, d, PathOf(database, role))
    {
      assert AbsentBetween(trace, b, c, PathOf(database, role));
    }
  }

  lemma SeenLonger(trace: Trace, a: nat, b: nat, c: nat, database: Path, previous: Inventory, files: map<Role,
                   FileInventory>)
    requires FilesReadBetween(trace, a, b, database, previous, files) && b <= c
    ensures FilesReadBetween(trace, a, c, database, previous, files)
  {
    forall role | role in files
      ensures SeenBetween(trace, a, c, PathOf(database, role), files[role].fingerprint)
    {
      assert SeenBetween(trace, a, b, PathOf(database, role), files[role].fingerprint);
    }
  }

  ghost predicate DistinctSets(sets: seq<DatabaseSet>) {
    forall i, j :: 0 <= i < j < |sets| ==> sets[i].database != sets[j].database
  }

  function DatabasesOf(sets: seq<DatabaseSet>): set<SetID> {
    set s | s in sets :: s.database
  }

  ghost predicate SetRead(trace: Trace, a: nat, b: nat, set_: DatabaseSet, previous: Inventory, inventory: Inventory) {
    set_.database in inventory && ReadBetween(trace, a, b, set_, previous, inventory[set_.database])
  }

  ghost predicate InventoryReadBetween(trace: Trace, a: nat, b: nat, sets: seq<DatabaseSet>, previous: Inventory,
                                       inventory: Inventory) {
    inventory.Keys == DatabasesOf(sets) && forall s :: s in sets ==> SetRead(trace, a, b, s, previous, inventory)
  }

  method ReadInventories(machine: Machine, sets: seq<DatabaseSet>, previous: Inventory)
    returns (r: Result<Inventory, PlannerError>)
    requires DistinctSets(sets)
    modifies machine`now
    ensures old(machine.now) <= machine.now
    ensures r.Ok? ==> InventoryReadBetween(machine.trace, old(machine.now), machine.now, sets, previous, r.value)
    ensures r.Err? ==> exists s :: s in sets && !Readable(machine.trace, old(machine.now), machine.now, s.database)
  {
    var inventory: Inventory := map[];
    for i := 0 to |sets|
      invariant old(machine.now) <= machine.now
      invariant InventoryReadBetween(machine.trace, old(machine.now), machine.now, sets[..i], previous, inventory)
    {
      ghost var before := machine.now;
      var item := ReadInventory(machine, sets[i], previous);
      if item.Err? {
        if Readable(machine.trace, old(machine.now), machine.now, sets[i].database) {
          ReadableWithin(machine.trace, old(machine.now), before, machine.now, machine.now, sets[i].database);
        }
        assert sets[i] in sets;
        return Err(item.error);
      }
      InventoryExtends(machine.trace, old(machine.now), before, machine.now, sets, i, previous, inventory, item.value);
      inventory := inventory[sets[i].database := item.value];
    }
    assert sets[..|sets|] == sets;
    return Ok(inventory);
  }

  lemma ReadableWithin(trace: Trace, a: nat, b: nat, c: nat, d: nat, database: Path)
    requires a <= b && c <= d && Readable(trace, a, d, database)
    ensures Readable(trace, b, c, database)
  {
    CalmWithin(trace, a, b, c, d, database);
    if PathCalm(trace, a, d, database + "-wal") {
      CalmWithin(trace, a, b, c, d, database + "-wal");
    }
    if PathCalm(trace, a, d, database + "-shm") {
      CalmWithin(trace, a, b, c, d, database + "-shm");
    }
  }

  lemma InventoryExtends(trace: Trace, a: nat, b: nat, c: nat, sets: seq<DatabaseSet>, i: nat, previous: Inventory,
                         inventory: Inventory, item: SetInventory)
    requires DistinctSets(sets) && i < |sets| && a <= b <= c
    requires InventoryReadBetween(trace, a, b, sets[..i], previous, inventory)
    requires ReadBetween(trace, b, c, sets[i], previous, item)
    ensures InventoryReadBetween(trace, a, c, sets[..i + 1], previous, inventory[sets[i].database := item])
  {
    var extended := inventory[sets[i].database := item];
    DatabasesSnoc(sets, i);
    forall s | s in sets[..i + 1]
      ensures SetRead(trace, a, c, s, previous, extended)
    {
      if s in sets[..i] {
        EarlierSetRead(trace, a, b, c, sets, i, s, previous, inventory, item);
      } else {
        NewSetRead(trace, a, b, c, sets[i], previous, inventory, item);
      }
    }
  }

  lemma NewSetRead(trace: Trace, a: nat, b: nat, c: nat, s: DatabaseSet, previous: Inventory, inventory: Inventory,
                   item: SetInventory)
    requires ReadBetween(trace, b, c, s, previous, item) && a <= b
    ensures SetRead(trace, a, c, s, previous, inventory[s.database := item])
  {
    SeenEarlier(trace, a, b, c, s.database, previous, item.files);
    AbsentLonger(trace, a, b, c, c, s.database, item.files.Keys);
  }

  lemma EarlierSetRead(trace: Trace, a: nat, b: nat, c: nat, sets: seq<DatabaseSet>, i: nat, s: DatabaseSet,
                       previous: Inventory, inventory: Inventory, item: SetInventory)
    requires DistinctSets(sets) && i < |sets| && b <= c && s in sets[..i]
    requires SetRead(trace, a, b, s, previous, inventory)
    ensures SetRead(trace, a, c, s, previous, inventory[sets[i].database := item])
  {
    var j :| 0 <= j < i && sets[j] == s;
    SeenLonger(trace, a, b, c, s.database, previous, inventory[s.database].files);
    AbsentLonger(trace, a, a, b, c, s.database, inventory[s.database].files.Keys);
  }

  lemma DatabasesSnoc(sets: seq<DatabaseSet>, i: nat)
    requires i < |sets|
    ensures DatabasesOf(sets[..i + 1]) == DatabasesOf(sets[..i]) + {sets[i].database}
    ensures forall s :: s in sets[..i + 1] <==> s in sets[..i] || s == sets[i]
  {
    assert sets[..i + 1] == sets[..i] + [sets[i]];
  }

  lemma SeenEarlier(trace: Trace, a: nat, b: nat, c: nat, database: Path, previous: Inventory, files: map<Role,
                    FileInventory>)
    requires FilesReadBetween(trace, b, c, database, previous, files) && a <= b
    ensures FilesReadBetween(trace, a, c, database, previous, files)
  {
    forall role | role in files
      ensures SeenBetween(trace, a, c, PathOf(database, role), files[role].fingerprint)
    {
      assert SeenBetween(trace, b, c, PathOf(database, role), files[role].fingerprint);
    }
  }

  // ----- comparing inventories -----

  predicate RolesEquivalent(previous: SetInventory, current: SetInventory) {
    previous.setID == current.setID && previous.logicalPath == current.logicalPath
    && previous.files.Keys == current.files.Keys
  }

  predicate MetadataEquivalent(previous: SetInventory, current: SetInventory) {
    RolesEquivalent(previous, current)
    && forall role :: role in current.files ==> previous.files[role].fingerprint == current.files[role].fingerprint
  }

  // ----- earlier manifests -----

  /** A manifest without acquisition evidence is read back from its entries. */
  function EntryOf(entries: seq<Entry>, id: SetID, role: Role): Option<Entry> {
    if entries == [] then None
    else if entries[0].sourceSetID == id && entries[0].role == role then Some(entries[0])
    else EntryOf(entries[1..], id, role)
  }

  function FirstOf(entries: seq<Entry>, id: SetID): Option<Entry> {
    if entries == [] then None
    else if entries[0].sourceSetID == id then Some(entries[0])
    else FirstOf(entries[1..], id)
  }

  function LegacySet(entries: seq<Entry>, id: SetID, first: Entry): SetInventory {
    var database := EntryOf(entries, id, Database);
    SetInventory(
      id,
      if database.Some? then database.value.logicalPath else first.logicalPath,
      map role | role in {Database, SharedMemory, WriteAheadLog} && EntryOf(entries, id, role).Some?
        :: var e := EntryOf(entries, id, role).value; FileInventory(e.fingerprint, Some(e.sha256)))
  }

  function InventoryBySet(manifest: Manifest): Inventory {
    match manifest.acquisition
    case Some(evidence) => evidence.sourceSets
    case None =>
      map id | id in (set e | e in manifest.entries :: e.sourceSetID) && FirstOf(manifest.entries, id).Some?
        :: LegacySet(manifest.entries, id, FirstOf(manifest.entries, id).value)
  }

  /** The path is that of an entry of the set: of the database if it has one. */
  ghost predicate NamedByEntry(entries: seq<Entry>, id: SetID, logicalPath: string) {
    exists e :: e in entries && e.sourceSetID == id && e.logicalPath == logicalPath
      && (e.role == Database || forall d :: d in entries && d.sourceSetID == id ==> d.role != Database)
  }

  /** The file is on record exactly if an entry is about it, and then as such an entry says. */
  ghost predicate TakenFromEntry(entries: seq<Entry>, files: map<Role, FileInventory>, id: SetID, role: Role) {
    && (role in files <==> exists e :: e in entries && e.sourceSetID == id && e.role == role)
    && (role in files ==>
          exists e :: e in entries && e.sourceSetID == id && e.role == role
            && files[role] == FileInventory(e.fingerprint, Some(e.sha256)))
  }

  /** A manifest is read by its evidence if it has any, and otherwise entry by entry. */
  lemma InventoryMeans(manifest: Manifest)
    ensures manifest.acquisition.Some? ==> InventoryBySet(manifest) == manifest.acquisition.value.sourceSets
    ensures manifest.acquisition.None? ==>
      var inventory := InventoryBySet(manifest);
      && (forall id :: id in inventory <==> exists e :: e in manifest.entries && e.sourceSetID == id)
      && forall id :: id in inventory ==>
           inventory[id].setID == id && NamedByEntry(manifest.entries, id, inventory[id].logicalPath)
           && forall role :: TakenFromEntry(manifest.entries, inventory[id].files, id, role)
  {
    if manifest.acquisition.None? {
      var entries := manifest.entries;
      forall id
        ensures FirstOf(entries, id).Some? <==> exists e :: e in entries && e.sourceSetID == id
      {
        FirstOfMeans(entries, id);
      }
      forall id | FirstOf(entries, id).Some?
        ensures NamedByEntry(entries, id, LegacySet(entries, id, FirstOf(entries, id).value).logicalPath)
        ensures forall role ::
          TakenFromEntry(entries, LegacySet(entries, id, FirstOf(entries, id).value).files, id, role)
      {
        LegacyMeans(entries, id);
      }
    }
  }

  lemma {:induction false} FirstOfMeans(entries: seq<Entry>, id: SetID)
    ensures FirstOf(entries, id).Some? <==> exists e :: e in entries && e.sourceSetID == id
    ensures FirstOf(entries, id).Some? ==>
      FirstOf(entries, id).value in entries && FirstOf(entries, id).value.sourceSetID == id
  {
    if entries != [] {
      FirstOfMeans(entries[1..], id);
      assert entries == [entries[0]] + entries[1..];
      if entries[0].sourceSetID == id {
        assert entries[0] in entries;
      }
    }
  }

  lemma LegacyMeans(entries: seq<Entry>, id: SetID)
    requires FirstOf(entries, id).Some?
    ensures NamedByEntry(entries, id, LegacySet(entries, id, FirstOf(entries, id).value).logicalPath)
    ensures forall role :: TakenFromEntry(entries, LegacySet(entries, id, FirstOf(entries, id).value).files, id, role)
  {
    FirstOfMeans(entries, id);
    EntryOfMeans(entries, id, Database);
    var legacy := LegacySet(entries, id, FirstOf(entries, id).value);
    forall role: Role
      ensures TakenFromEntry(entries, legacy.files, id, role)
    {
      EntryOfMeans(entries, id, role);
      assert role in {Database, SharedMemory, WriteAheadLog};
    }
  }

  // ----- planning -----

  function ModifiedDate(fingerprint: Fingerprint): real {
    fingerprint.modifiedSeconds as real + fingerprint.modifiedNanoseconds as real / 1000000000.0
  }

  /** The newest file of the set was modified within the window. */
  predicate RecentlyModified(inventory: SetInventory, window: real, now: real) {
    exists role :: role in inventory.files && now - ModifiedDate(inventory.files[role].fingerprint) <= window
  }

  predicate Unchanged(previous: Inventory, current: Inventory, id: SetID)
    requires id in current
  {
    id in previous && MetadataEquivalent(previous[id], current[id])
  }

  function PreviousScan(previous: Option<Manifest>): Option<real> {
    match previous
    case None => None
    case Some(manifest) =>
      match manifest.acquisition
      case None => None
      case Some(evidence) =>
        if evidence.lastIntegrityScanAt.Some? then evidence.lastIntegrityScanAt
        else if evidence.mode == Bootstrap || evidence.mode == IntegrityScan then Some(manifest.createdAt)
        else None
  }

  function ModeFor(previous: Option<Manifest>, force: bool, interval: Option<real>, now: real): Mode {
    if previous.None? then Bootstrap
    else if force
      || (interval.Some? && (PreviousScan(previous).Some? ==> now - PreviousScan(previous).value >= interval.value))
    then IntegrityScan
    else Incremental
  }

  function Select(sets: seq<DatabaseSet>, ids: set<SetID>): (r: seq<DatabaseSet>)
    ensures forall s :: s in r <==> s in sets && s.database in ids
  {
    if sets == [] then []
    else (if sets[0].database in ids then [sets[0]] else []) + Select(sets[1..], ids)
  }

  lemma {:induction false} SelectIsDistinct(sets: seq<DatabaseSet>, ids: set<SetID>)
    requires DistinctSets(sets)
    ensures DistinctSets(Select(sets, ids))
  {
    if sets != [] {
      SelectIsDistinct(sets[1..], ids);
      var rest := Select(sets[1..], ids);
      forall s | s in rest
        ensures s.database != sets[0].database
      {
        var i :| 0 <= i < |sets[1..]| && sets[1..][i] == s;
        assert sets[i + 1] == s;
      }
      assert forall i :: 0 <= i < |rest| ==> rest[i] in rest;
    }
  }

  /** The set has the same name and the same roles as before. */
  ghost predicate SameRoles(previous: Inventory, current: Inventory, id: SetID)
    requires id in current
  {
    && id in previous && previous[id].setID == current[id].setID && previous[id].logicalPath == current[id].logicalPath
    && forall role :: role in previous[id].files <==> role in current[id].files
  }

  /** And each file of it has the same fingerprint. */
  ghost predicate SameMetadata(previous: Inventory, current: Inventory, id: SetID)
    requires id in current
  {
    SameRoles(previous, current, id)
    && forall role :: role in current[id].files ==>
         previous[id].files[role].fingerprint == current[id].files[role].fingerprint
  }

  /** Some file of the set was modified in the last `window` seconds. */
  ghost predicate TouchedWithin(inventory: SetInventory, window: real, now: real) {
    exists role :: role in inventory.files
      && now <= window + inventory.files[role].fingerprint.modifiedSeconds as real
                + inventory.files[role].fingerprint.modifiedNanoseconds as real / 1000000000.0
  }

  /** Which sets a plan reads again, and which it leaves alone. */
  ghost predicate SelectsExactly(evidence: Evidence, previous: Inventory, window: real, now: real) {
    var current := evidence.sourceSets;
    && (forall id :: id in evidence.changed
          <==> id in current && (evidence.mode != Incremental || !SameMetadata(previous, current, id)))
    && (forall id :: id in evidence.reconciliation
          <==> id in current && evidence.mode == Incremental && SameMetadata(previous, current, id)
               && TouchedWithin(current[id], window, now))
    && forall id :: id in evidence.deleted <==> id in previous && id !in current
  }

  lemma UnchangedMeans(previous: Inventory, current: Inventory, id: SetID, window: real, now: real)
    requires id in current
    ensures Unchanged(previous, current, id) <==> SameMetadata(previous, current, id)
    ensures RecentlyModified(current[id], window, now) <==> TouchedWithin(current[id], window, now)
  {
  }

  /** The last integrity scan there was, once a run of this mode has ended. */
  function ScanAfter(previous: Option<Manifest>, mode: Mode, now: real): Option<real> {
    if mode == Incremental then PreviousScan(previous) else Some(now)
  }

  /** What the planner does not take on. */
  ghost predicate NotTakenOn(sets: seq<DatabaseSet>, accountBinding: string, previous: Option<Manifest>,
                          interval: Option<real>, window: real) {
    sets == [] || window < 0.0 || (interval.Some? && interval.value <= 0.0)
    || (previous.Some? && previous.value.accountBinding != Some(accountBinding))
  }

  method MakePlan(machine: Machine, sets: seq<DatabaseSet>, accountBinding: string, previous: Option<Manifest>,
                  force: bool, interval: Option<real>, window: real, now: real)
    returns (r: Result<Plan, PlannerError>)
    requires DistinctSets(sets)
    modifies machine`now
    ensures old(machine.now) <= machine.now
    ensures r.Ok? ==>
      var earlier := if previous.Some? then InventoryBySet(previous.value) else map[];
      var evidence := r.value.evidence;
      && r.value.allSets == sets && r.value.accountBinding == accountBinding
      && (previous.Some? ==> previous.value.accountBinding == Some(accountBinding))
      && InventoryReadBetween(machine.trace, old(machine.now), machine.now, sets, earlier, evidence.sourceSets)
      && evidence.mode == ModeFor(previous, force, interval, now)
      && evidence.lastIntegrityScanAt == ScanAfter(previous, evidence.mode, now)
      && SelectsExactly(evidence, earlier, window, now)
      && r.value.selectedSets == Select(sets, evidence.changed + evidence.reconciliation)
    ensures NotTakenOn(sets, accountBinding, previous, interval, window) ==> r.Err?
    ensures r.Err? ==>
      NotTakenOn(sets, accountBinding, previous, interval, window)
      || exists s :: s in sets && !Readable(machine.trace, old(machine.now), machine.now, s.database)
  {
    if sets == [] {
      return Err(NoDatabaseSets);
    }
    var earlier: Inventory := map[];
    if previous.Some? {
      match previous.value.accountBinding {
        case None => return Err(PreviousAccountBindingMissing);
        case Some(b) =>
          if b != accountBinding {
            return Err(AccountBindingChanged);
          }
      }
      earlier := InventoryBySet(previous.value);
    }
    if window < 0.0 {
      return Err(InvalidReconciliationWindow);
    }
    if interval.Some? && interval.value <= 0.0 {
      return Err(InvalidIntegrityScanInterval);
    }
    var read := ReadInventories(machine, sets, earlier);
    if read.Err? {
      return Err(read.error);
    }
    var current := read.value;
    var mode := ModeFor(previous, force, interval, now);
    var changed, reconciliation := Classify(earlier, current, mode, window, now);
    forall id | id in current
      ensures Unchanged(earlier, current, id) <==> SameMetadata(earlier, current, id)
      ensures RecentlyModified(current[id], window, now) <==> TouchedWithin(current[id], window, now)
    {
      UnchangedMeans(earlier, current, id, window, now);
    }
    var lastScan := if mode == Incremental then PreviousScan(previous) else Some(now);
    var evidence := Evidence(mode, changed, reconciliation, earlier.Keys - current.Keys, current, lastScan);
    return Ok(Plan(evidence, accountBinding, Select(sets, changed + reconciliation), sets));
  }

  method Classify(previous: Inventory, current: Inventory, mode: Mode, window: real, now: real)
    returns (changed: set<SetID>, reconciliation: set<SetID>)
    ensures changed == set id | id in current && (mode != Incremental || !Unchanged(previous, current, id))
    ensures reconciliation == set id | id in current && mode == Incremental
                                       && Unchanged(previous, current, id) && RecentlyModified(current[id], window, now)
  {
    if mode != Incremental {
      return current.Keys, {};
    }
    changed, reconciliation := {}, {};
    var remaining := current.Keys;
    while remaining != {}
      invariant remaining <= current.Keys
      invariant changed == set id | id in current && id !in remaining && !Unchanged(previous, current, id)
      invariant reconciliation == set id | id in current && id !in remaining
                                           && Unchanged(previous, current, id)
                                           && RecentlyModified(current[id], window, now)
      decreases remaining
    {
      var id :| id in remaining;
      if !(id in previous && MetadataEquivalent(previous[id], current[id])) {
        changed := changed + {id};
      } else if RecentlyModified(current[id], window, now) {
        reconciliation := reconciliation + {id};
      }
      remaining := remaining - {id};
    }
  }

  // ----- verifying and finishing a plan -----

  function SelectedIDs(evidence: Evidence): set<SetID> {
    evidence.changed + evidence.reconciliation
  }

  /**
    In (a, b] every set was looked at again: it had exactly the files of the
    plan, and those of a set left unread had the planned fingerprints.
   */
  ghost predicate StillPlanned(trace: Trace, a: nat, b: nat, plan: Plan) {
    && (forall id :: id in plan.evidence.sourceSets ==>
        SameFilesSeen(trace, a, b, id, plan.evidence.sourceSets[id].files))
    && forall id, role :: LeftUnread(plan, id, role) ==>
         SeenBetween(trace, a, b, PathOf(id, role), plan.evidence.sourceSets[id].files[role].fingerprint)
  }

  /** A planned file of a set the plan does not read again. */
  predicate LeftUnread(plan: Plan, id: SetID, role: Role) {
    id in plan.evidence.sourceSets && id !in SelectedIDs(plan.evidence) && role in plan.evidence.sourceSets[id].files
  }

  ghost predicate SameFilesSeen(trace: Trace, a: nat, b: nat, database: Path, files: map<Role, FileInventory>) {
    OthersAbsent(trace, a, b, database, files.Keys)
    && forall role :: role in files ==>
         exists fingerprint :: SeenBetween(trace, a, b, PathOf(database, role), fingerprint)
  }

  ghost predicate PlanDescribes(plan: Plan, s: DatabaseSet) {
    s.database in plan.evidence.sourceSets && plan.evidence.sourceSets[s.database].logicalPath == s.logicalPath
    && Database in plan.evidence.sourceSets[s.database].files
  }

  /** Throughout (a, b] the file is as planned: there or not, and unless it is read again the one that was seen. */
  ghost predicate FileStands(trace: Trace, a: nat, b: nat, plan: Plan, id: SetID, role: Role)
    requires id in plan.evidence.sourceSets
  {
    var path, files := PathOf(id, role), plan.evidence.sourceSets[id].files;
    if role !in files then PathGone(trace, a, b, path)
    else if id in SelectedIDs(plan.evidence) then PathCalm(trace, a, b, path)
    else exists file :: Calm(trace, a, b, path, file) && file.fingerprint == files[role].fingerprint
  }

  ghost predicate PlanStands(trace: Trace, a: nat, b: nat, plan: Plan) {
    forall id, role :: id in plan.evidence.sourceSets ==> FileStands(trace, a, b, plan, id, role)
  }

  lemma StandingIsReadable(trace: Trace, a: nat, b: nat, plan: Plan, s: DatabaseSet)
    requires PlanCovers(plan) && PlanStands(trace, a, b, plan) && s in plan.allSets
    ensures Readable(trace, a, b, s.database)
  {
    assert PlanDescribes(plan, s);
    assert FileStands(trace, a, b, plan, s.database, Database);
    assert FileStands(trace, a, b, plan, s.database, WriteAheadLog);
    assert FileStands(trace, a, b, plan, s.database, SharedMemory);
  }

  /** What was seen of a calm name is its file. */
  lemma CalmIsSeen(trace: Trace, a: nat, b: nat, path: Path, file: File, fingerprint: Fingerprint)
    requires Calm(trace, a, b, path, file) && SeenBetween(trace, a, b, path, fingerprint)
    ensures fingerprint == file.fingerprint
  {
    var t, seen :| a < t <= b && Shows(trace, t, path, seen) && seen.fingerprint == fingerprint && seen.regular;
    assert Shows(trace, t, path, file);
  }

  /** Looked up again while the plan stands, a file is what was planned. */
  lemma StandingFile(trace: Trace, a: nat, b: nat, plan: Plan, s: DatabaseSet, current: Inventory, role: Role)
    requires PlanCovers(plan) && PlanStands(trace, a, b, plan) && s in plan.allSets
    requires SetRead(trace, a, b, s, plan.evidence.sourceSets, current)
    ensures s.database in plan.evidence.sourceSets
    ensures role in plan.evidence.sourceSets[s.database].files <==> role in current[s.database].files
    ensures role in current[s.database].files && s.database !in SelectedIDs(plan.evidence) ==>
      current[s.database].files[role].fingerprint == plan.evidence.sourceSets[s.database].files[role].fingerprint
  {
    var id := s.database;
    var planned, path := plan.evidence.sourceSets[id].files, PathOf(id, role);
    assert PlanDescribes(plan, s) && FileStands(trace, a, b, plan, id, role);
    GoneOrThere(trace, a, b, path);
    if role in current[id].files {
      assert SeenBetween(trace, a, b, path, current[id].files[role].fingerprint);
      if role in planned && id !in SelectedIDs(plan.evidence) {
        var file :| Calm(trace, a, b, path, file) && file.fingerprint == planned[role].fingerprint;
        CalmIsSeen(trace, a, b, path, file, current[id].files[role].fingerprint);
      }
    } else {
      assert AbsentBetween(trace, a, b, path);
    }
  }

  /** A name without a file is not seen, and a calm one is not missed. */
  lemma GoneOrThere(trace: Trace, a: nat, b: nat, path: Path)
    ensures PathGone(trace, a, b, path) ==> forall fingerprint :: !SeenBetween(trace, a, b, path, fingerprint)
    ensures PathCalm(trace, a, b, path) ==> !AbsentBetween(trace, a, b, path)
  {
    forall fingerprint | SeenBetween(trace, a, b, path, fingerprint)
      ensures !PathGone(trace, a, b, path)
    {
      var k, file :| a < k <= b && Shows(trace, k, path, file) && file.fingerprint == fingerprint && file.regular;
      assert !Absent(trace, k, path);
    }
    if AbsentBetween(trace, a, b, path) {
      var k :| a < k <= b && Absent(trace, k, path);
      forall file
        ensures !Calm(trace, a, b, path, file)
      {
        assert !Shows(trace, k, path, file);
      }
    }
  }

  lemma StandingMatches(trace: Trace, a: nat, b: nat, plan: Plan, current: Inventory)
    requires PlanCovers(plan) && PlanStands(trace, a, b, plan)
    requires InventoryReadBetween(trace, a, b, plan.allSets, plan.evidence.sourceSets, current)
    ensures forall s :: s in plan.allSets ==>
      s.database in plan.evidence.sourceSets && s.database in current && StillMatches(plan, current, s.database)
  {
    forall s | s in plan.allSets
      ensures s.database in plan.evidence.sourceSets && s.database in current
      ensures StillMatches(plan, current, s.database)
    {
      assert SetRead(trace, a, b, s, plan.evidence.sourceSets, current) && PlanDescribes(plan, s);
      forall role: Role
        ensures role in plan.evidence.sourceSets[s.database].files <==> role in current[s.database].files
        ensures role in current[s.database].files && s.database !in SelectedIDs(plan.evidence) ==>
          current[s.database].files[role].fingerprint == plan.evidence.sourceSets[s.database].files[role].fingerprint
      {
        StandingFile(trace, a, b, plan, s, current, role);
      }
    }
  }

  ghost predicate NamedByThemselves(inventory: Inventory) {
    forall id :: id in inventory ==> inventory[id].setID == id
  }

  /** What every plan made by `MakePlan` satisfies. */
  ghost predicate PlanCovers(plan: Plan) {
    DistinctSets(plan.allSets)
    && plan.evidence.sourceSets.Keys == DatabasesOf(plan.allSets)
    && NamedByThemselves(plan.evidence.sourceSets)
    && (forall s :: s in plan.allSets ==> PlanDescribes(plan, s))
    && plan.selectedSets == Select(plan.allSets, SelectedIDs(plan.evidence))
  }

  predicate MatchesPlan(plan: Plan, current: Inventory, id: SetID)
    requires id in plan.evidence.sourceSets && id in current
  {
    if id in SelectedIDs(plan.evidence) then RolesEquivalent(plan.evidence.sourceSets[id], current[id])
    else MetadataEquivalent(plan.evidence.sourceSets[id], current[id])
  }

  /** The set has the roles of the plan, and unless it is read again their fingerprints too. */
  ghost predicate StillMatches(plan: Plan, current: Inventory, id: SetID)
    requires id in plan.evidence.sourceSets && id in current
  {
    && SameRoles(plan.evidence.sourceSets, current, id)
    && (id !in plan.evidence.changed && id !in plan.evidence.reconciliation ==>
          SameMetadata(plan.evidence.sourceSets, current, id))
  }

  lemma MatchMeans(plan: Plan, current: Inventory, id: SetID)
    requires id in plan.evidence.sourceSets && id in current
    ensures MatchesPlan(plan, current, id) <==> StillMatches(plan, current, id)
  {
  }

  lemma StandingAreReadable(trace: Trace, a: nat, b: nat, plan: Plan)
    requires PlanCovers(plan) && PlanStands(trace, a, b, plan)
    ensures forall s :: s in plan.allSets ==> Readable(trace, a, b, s.database)
  {
    forall s | s in plan.allSets
      ensures Readable(trace, a, b, s.database)
    {
      StandingIsReadable(trace, a, b, plan, s);
    }
  }

  method VerifyForSnapshot(machine: Machine, plan: Plan) returns (r: Result<(), PlannerError>)
    requires PlanCovers(plan)
    modifies machine`now
    ensures old(machine.now) <= machine.now
    ensures r.Ok? ==> StillPlanned(machine.trace, old(machine.now), machine.now, plan)
    ensures r.Err? ==> !PlanStands(machine.trace, old(machine.now), machine.now, plan)
  {
    var read := ReadInventories(machine, plan.allSets, plan.evidence.sourceSets);
    if read.Err? {
      if PlanStands(machine.trace, old(machine.now), machine.now, plan) {
        StandingAreReadable(machine.trace, old(machine.now), machine.now, plan);
      }
      return Err(read.error);
    }
    r := CompareWithPlan(plan, read.value);
    if r.Err? && PlanStands(machine.trace, old(machine.now), machine.now, plan) {
      StandingMatches(machine.trace, old(machine.now), machine.now, plan, read.value);
    }
    if r.Ok? {
      forall s | s in plan.allSets
        ensures MatchesPlan(plan, read.value, s.database)
      {
        MatchMeans(plan, read.value, s.database);
      }
      MatchingIsStillPlanned(machine.trace, old(machine.now), machine.now, plan, read.value);
    }
  }

  method CompareWithPlan(plan: Plan, current: Inventory) returns (r: Result<(), PlannerError>)
    requires PlanCovers(plan) && current.Keys == DatabasesOf(plan.allSets)
    ensures r.Ok? <==> forall s :: s in plan.allSets ==> StillMatches(plan, current, s.database)
  {
    for i := 0 to |plan.allSets|
      invariant forall j :: 0 <= j < i ==> StillMatches(plan, current, plan.allSets[j].database)
    {
      MatchMeans(plan, current, plan.allSets[i].database);
      if !MatchesPlan(plan, current, plan.allSets[i].database) {
        assert plan.allSets[i] in plan.allSets;
        return Err(InventoryChanged(plan.allSets[i].database));
      }
    }
    return Ok(());
  }

  lemma MatchingIsStillPlanned(trace: Trace, a: nat, b: nat, plan: Plan, current: Inventory)
    requires PlanCovers(plan)
    requires InventoryReadBetween(trace, a, b, plan.allSets, plan.evidence.sourceSets, current)
    requires forall s :: s in plan.allSets ==> MatchesPlan(plan, current, s.database)
    ensures StillPlanned(trace, a, b, plan)
  {
    var expected := plan.evidence.sourceSets;
    forall id, role | LeftUnread(plan, id, role)
      ensures SeenBetween(trace, a, b, PathOf(id, role), expected[id].files[role].fingerprint)
    {
      var s :| s in plan.allSets && s.database == id;
      assert SetRead(trace, a, b, s, expected, current) && MatchesPlan(plan, current, id);
      assert role in current[id].files;
    }
    forall id | id in expected
      ensures SameFilesSeen(trace, a, b, id, expected[id].files)
    {
      var s :| s in plan.allSets && s.database == id;
      assert SetRead(trace, a, b, s, expected, current) && MatchesPlan(plan, current, id);
      assert expected[id].files.Keys == current[id].files.Keys;
      forall role | role in expected[id].files
        ensures exists fingerprint :: SeenBetween(trace, a, b, PathOf(id, role), fingerprint)
      {
        assert role in current[id].files.Keys;
        assert SeenBetween(trace, a, b, PathOf(id, role), current[id].files[role].fingerprint);
      }
    }
  }

  function FinalizedFile(file: FileInventory, entry: Option<Entry>): FileInventory {
    match entry
    case Some(e) => FileInventory(e.fingerprint, Some(e.sha256))
    case None => file
  }

  function FinalizedSet(sourceSet: SetInventory, entries: seq<Entry>): SetInventory {
    SetInventory(
      sourceSet.setID, sourceSet.logicalPath,
      map role | role in sourceSet.files ::
        FinalizedFile(sourceSet.files[role], EntryOf(entries, sourceSet.setID, role)))
  }

  function FinalizedSets(plan: Plan, entries: seq<Entry>): Inventory {
    var planned := plan.evidence.sourceSets;
    map id | id in planned :: FinalizedSet(planned[id], entries)
  }

  predicate AllDigestsKnown(inventory: Inventory) {
    forall id, role :: id in inventory && role in inventory[id].files ==> inventory[id].files[role].digest.Some?
  }

  function FinalizedEvidence(plan: Plan, entries: seq<Entry>): Result<Evidence, PlannerError> {
    var finalized := FinalizedSets(plan, entries);
    if AllDigestsKnown(finalized) then Ok(plan.evidence.(sourceSets := finalized))
    else Err(InventoryChanged("missing digest"))
  }

  /** The entry was taken for this file of this set. */
  predicate EntryIsFor(e: Entry, id: SetID, role: Role) {
    e.sourceSetID == id && e.role == role
  }

  /** Recorded is what an entry says about the file, or without one what the plan carried. */
  ghost predicate RecordedFrom(recorded: FileInventory, planned: FileInventory, entries: seq<Entry>, id: SetID,
                               role: Role) {
    (exists e :: e in entries && EntryIsFor(e, id, role) && recorded == FileInventory(e.fingerprint, Some(e.sha256)))
    || (recorded == planned && planned.digest.Some? && forall e :: e in entries ==> !EntryIsFor(e, id, role))
  }

  /** A planned file that was neither captured nor carried. */
  ghost predicate Undocumented(plan: Plan, entries: seq<Entry>, id: SetID, role: Role) {
    id in plan.evidence.sourceSets && role in plan.evidence.sourceSets[id].files
    && plan.evidence.sourceSets[id].files[role].digest.None?
    && forall e :: e in entries ==> !EntryIsFor(e, plan.evidence.sourceSets[id].setID, role)
  }

  lemma {:induction false} EntryOfMeans(entries: seq<Entry>, id: SetID, role: Role)
    ensures EntryOf(entries, id, role).Some? <==> exists e :: e in entries && EntryIsFor(e, id, role)
    ensures EntryOf(entries, id, role).Some? ==>
      EntryOf(entries, id, role).value in entries && EntryIsFor(EntryOf(entries, id, role).value, id, role)
  {
    if entries != [] {
      EntryOfMeans(entries[1..], id, role);
      assert entries == [entries[0]] + entries[1..];
      if EntryIsFor(entries[0], id, role) {
        assert entries[0] in entries;
      }
    }
  }

  /**
    Evidence names every planned file, each from its capture or else from the plan; it is refused when
    some file has neither.
   */
  lemma FinalizedMeans(plan: Plan, entries: seq<Entry>)
    ensures FinalizedEvidence(plan, entries).Err? <==> exists id, role :: Undocumented(plan, entries, id, role)
    ensures FinalizedEvidence(plan, entries).Ok? ==>
      var planned, recorded := plan.evidence.sourceSets, FinalizedEvidence(plan, entries).value.sourceSets;
      FinalizedEvidence(plan, entries).value.(sourceSets := planned) == plan.evidence
      && recorded.Keys == planned.Keys
      && forall id, role :: id in planned ==>
           (role in recorded[id].files <==> role in planned[id].files)
           && (role in planned[id].files ==>
                 RecordedFrom(recorded[id].files[role], planned[id].files[role], entries, planned[id].setID, role))
  {
    var planned, finalized := plan.evidence.sourceSets, FinalizedSets(plan, entries);
    forall id, role | id in planned && role in planned[id].files
      ensures finalized[id].files[role].digest.None? <==> Undocumented(plan, entries, id, role)
      ensures finalized[id].files[role].digest.Some? ==>
        RecordedFrom(finalized[id].files[role], planned[id].files[role], entries, planned[id].setID, role)
    {
      EntryOfMeans(entries, planned[id].setID, role);
    }
    if exists id, role :: Undocumented(plan, entries, id, role) {
      var id, role :| Undocumented(plan, entries, id, role);
      assert id in finalized && role in finalized[id].files && finalized[id].files[role].digest.None?;
    }
  }
}
