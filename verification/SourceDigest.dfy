/**
  The text that identifies a source's evidence
  (Sources/GreenBubblesCore/SnapshotAcquisitionPlanner.swift,
  `sourceFingerprint`): hashing it identifies the evidence, because the text
  determines everything that went into it.
 */
module SourceDigest {
  import opened Wrappers
  import opened Volume
  import opened Snapshot
  import opened Planner
  import opened Canonical

  const UNIT := '\U{1f}'
  const RECORD := '\U{1e}'
  const GROUP := '\U{1d}'

  datatype ListedFile = ListedFile(role: Role, inventory: FileInventory)

  datatype ListedSet = ListedSet(setID: SetID, logicalPath: string, files: seq<ListedFile>)

  datatype AccountBinding = AccountBinding(formatVersion: int, accountID: string, selfSourceIdentifierBase64: string,
                                           evidence: string)

  // ----- the text -----

  function RoleName(role: Role): string {
    match role
    case Database => "database"
    case WriteAheadLog => "writeAheadLog"
    case SharedMemory => "sharedMemory"
  }

  function FileFields(file: ListedFile): (fields: seq<string>)
    ensures |fields| == 7
  {
    var f := file.inventory.fingerprint;
    [RoleName(file.role), Signed(f.deviceID), Signed(f.fileID), Signed(f.byteCount),
     Signed(f.modifiedSeconds), Signed(f.modifiedNanoseconds), file.inventory.digest.GetOr("missing")]
  }

  function AllFields(files: seq<ListedFile>): seq<string> {
    if files == [] then [] else FileFields(files[0]) + AllFields(files[1..])
  }

  function BindingFields(b: AccountBinding): seq<string> {
    ["accountBinding", Signed(b.formatVersion), b.accountID, b.selfSourceIdentifierBase64, b.evidence]
  }

  /** Every field after a unit separator. */
  function Units(fields: seq<string>): string {
    if fields == [] then [] else [UNIT] + fields[0] + Units(fields[1..])
  }

  function SetText(s: ListedSet): string {
    s.setID + [NUL] + s.logicalPath + Units(AllFields(s.files)) + [RECORD]
  }

  function SetsText(sets: seq<ListedSet>): string {
    if sets == [] then [] else SetText(sets[0]) + SetsText(sets[1..])
  }

  function FingerprintText(sets: seq<ListedSet>, binding: AccountBinding): string {
    SetsText(sets) + [GROUP] + Units(BindingFields(binding))
  }

  /** What is hashed of one set with one file, and behind the sets. */
  lemma WrittenOut(setID: string, logicalPath: string, digest: string, account: string, selfID: string,
                   evidence: string, sets: seq<ListedSet>)
    ensures SetText(ListedSet(setID, logicalPath, [ListedFile(
                      WriteAheadLog, FileInventory(Fingerprint(1, 2, 3, 4, 5), Some(digest)))]))
         == setID + "\0" + logicalPath + Units(["writeAheadLog", "1", "2", "3", "4", "5", digest]) + "\U{1e}"
    ensures FingerprintText(sets, AccountBinding(6, account, selfID, evidence))
         == SetsText(sets) + "\U{1d}" + Units(["accountBinding", "6", account, selfID, evidence])
  {
    var file := ListedFile(WriteAheadLog, FileInventory(Fingerprint(1, 2, 3, 4, 5), Some(digest)));
    assert [file][1..] == [] && AllFields([file]) == FileFields(file);
  }

  lemma Regroup<T>(a: seq<T>, b: seq<T>, c: seq<T>)
    ensures (a + b) + c == a + (b + c)
  {
  }

  lemma {:induction false} UnitsJoin(a: seq<string>, b: seq<string>)
    ensures Units(a + b) == Units(a) + Units(b)
  {
    if a == [] {
      assert a + b == b;
    } else {
      UnitsJoin(a[1..], b);
      assert (a + b)[1..] == a[1..] + b;
      Regroup([UNIT] + a[0], Units(a[1..]), Units(b));
    }
  }

  lemma UnitsSnoc(fields: seq<string>, field: string)
    ensures Units(fields + [field]) == Units(fields) + ['\U{1f}'] + field
  {
    UnitsJoin(fields, [field]);
    assert [field][1..] == [];
  }

  lemma {:induction false} AllFieldsSnoc(files: seq<ListedFile>, file: ListedFile)
    ensures AllFields(files + [file]) == AllFields(files) + FileFields(file)
  {
    if files == [] {
      assert [] + [file] == [file] && [file][1..] == [];
    } else {
      AllFieldsSnoc(files[1..], file);
      assert (files + [file])[1..] == files[1..] + [file];
      Regroup(FileFields(files[0]), AllFields(files[1..]), FileFields(file));
    }
  }

  lemma {:induction false} SetsTextSnoc(sets: seq<ListedSet>, s: ListedSet)
    ensures SetsText(sets + [s]) == SetsText(sets) + SetText(s)
  {
    if sets == [] {
      assert [] + [s] == [s] && [s][1..] == [];
    } else {
      SetsTextSnoc(sets[1..], s);
      assert (sets + [s])[1..] == sets[1..] + [s];
      Regroup(SetText(sets[0]), SetsText(sets[1..]), SetText(s));
    }
  }

  /** Updates the hasher field by field. */
  method UpdateFields(hashed: string, fields: seq<string>) returns (updated: string)
    ensures updated == hashed + Units(fields)
  {
    updated := hashed;
    for i := 0 to |fields|
      invariant updated == hashed + Units(fields[..i])
    {
      UnitsSnoc(fields[..i], fields[i]);
      assert fields[..i + 1] == fields[..i] + [fields[i]];
      updated := updated + [UNIT];
      updated := updated + fields[i];
    }
    assert fields[..|fields|] == fields;
  }

  lemma NextFile(files: seq<ListedFile>, i: nat)
    requires i < |files|
    ensures Units(AllFields(files[..i + 1])) == Units(AllFields(files[..i])) + Units(FileFields(files[i]))
  {
    AllFieldsSnoc(files[..i], files[i]);
    UnitsJoin(AllFields(files[..i]), FileFields(files[i]));
    assert files[..i + 1] == files[..i] + [files[i]];
  }

  method UpdateFiles(hashed: string, files: seq<ListedFile>) returns (updated: string)
    ensures updated == hashed + Units(AllFields(files))
  {
    updated := hashed;
    for i := 0 to |files|
      invariant updated == hashed + Units(AllFields(files[..i]))
    {
      NextFile(files, i);
      Regroup(hashed, Units(AllFields(files[..i])), Units(FileFields(files[i])));
      updated := UpdateFields(updated, FileFields(files[i]));
    }
    assert files[..|files|] == files;
  }

  lemma FiveParts(hashed: string, a: string, b: string, c: string, d: string, e: string)
    ensures hashed + a + b + c + d + e == hashed + (a + b + c + d + e)
  {
  }

  method UpdateSet(hashed: string, s: ListedSet) returns (updated: string)
    ensures updated == hashed + SetText(s)
  {
    updated := hashed + s.setID;
    updated := updated + [NUL];
    updated := updated + s.logicalPath;
    updated := UpdateFiles(updated, s.files);
    updated := updated + [RECORD];
    FiveParts(hashed, s.setID, [NUL], s.logicalPath, Units(AllFields(s.files)), [RECORD]);
  }

  method SourceFingerprint(sets: seq<ListedSet>, binding: AccountBinding, hash: string -> Digest)
    returns (digest: Digest)
    ensures digest == hash(FingerprintText(sets, binding))
  {
    var hashed: string := [];
    for i := 0 to |sets|
      invariant hashed == SetsText(sets[..i])
    {
      SetsTextSnoc(sets[..i], sets[i]);
      assert sets[..i + 1] == sets[..i] + [sets[i]];
      hashed := UpdateSet(hashed, sets[i]);
    }
    assert sets[..|sets|] == sets;
    hashed := hashed + [GROUP];
    hashed := UpdateFields(hashed, BindingFields(binding));
    return hash(hashed);
  }

  // ----- the text determines what it was made from -----

  predicate Separator(c: char) {
    c == NUL || c == UNIT || c == RECORD || c == GROUP
  }

  predicate Plain(field: string) {
    forall c :: c in field ==> !Separator(c)
  }

  predicate PlainFields(fields: seq<string>) {
    forall f :: f in fields ==> Plain(f)
  }

  /** A digest is hexadecimal, so it is plain and not the word for a missing one. */
  predicate ProperDigest(file: ListedFile) {
    file.inventory.digest.Some? ==> Plain(file.inventory.digest.value) && file.inventory.digest.value != "missing"
  }

  /** What an inventory lists: the database first, and no role twice. */
  predicate ProperFiles(files: seq<ListedFile>) {
    && files != [] && files[0].role == Database
    && (forall i, j :: 0 <= i < j < |files| ==> files[i].role != files[j].role)
    && forall f :: f in files ==> ProperDigest(f)
  }

  /** An identity is hexadecimal; a path may hold any character but NUL. */
  predicate ProperSet(s: ListedSet) {
    Plain(s.setID) && NUL !in s.logicalPath && ProperFiles(s.files)
  }

  predicate ProperSets(sets: seq<ListedSet>) {
    forall s :: s in sets ==> ProperSet(s)
  }

  predicate ProperBinding(b: AccountBinding) {
    Plain(b.accountID) && Plain(b.selfSourceIdentifierBase64) && Plain(b.evidence)
  }

  // ----- reading a text from its end -----

  /** How much of the text stands behind the last character that `mark` marks. */
  function Tail(s: string, mark: char -> bool): (n: nat)
    ensures n <= |s|
  {
    if s == [] || mark(s[|s| - 1]) then 0 else 1 + Tail(s[..|s| - 1], mark)
  }

  lemma {:induction false} TailIs(a: string, x: char, f: string, mark: char -> bool)
    requires mark(x) && forall c :: c in f ==> !mark(c)
    ensures Tail(a + [x] + f, mark) == |f|
  {
    var s := a + [x] + f;
    if f == [] {
      assert s[|s| - 1] == x;
    } else {
      var last := |f| - 1;
      assert f[last] in f && forall c :: c in f[..last] ==> c in f;
      TailIs(a, x, f[..last], mark);
      assert s[..|s| - 1] == a + [x] + f[..last];
    }
  }

  /**
    What stands behind the last marked character, that character, and what stands before it can be told
    from the text.
   */
  lemma TailIsDetermined(a: string, x: char, f: string, b: string, y: char, g: string, mark: char -> bool)
    requires mark(x) && mark(y) && (forall c :: c in f ==> !mark(c)) && (forall c :: c in g ==> !mark(c))
    requires a + [x] + f == b + [y] + g
    ensures a == b && x == y && f == g
  {
    var s := a + [x] + f;
    TailIs(a, x, f, mark);
    TailIs(b, y, g, mark);
    assert |f| == |g| && f == s[|s| - |f|..] == g;
    assert a + [x] == s[..|s| - |f|] == b + [y];
    assert a == (a + [x])[..|a|] && b == (b + [y])[..|b|] && (a + [x])[|a|] == x && (b + [y])[|b|] == y;
  }

  /** The last plain fields, as many as there are, and what stands before them. */
  lemma {:induction false} UnitsAreDetermined(p: string, f: seq<string>, q: string, g: seq<string>)
    requires |f| == |g| && PlainFields(f) && PlainFields(g) && p + Units(f) == q + Units(g)
    ensures p == q && f == g
    decreases |f|
  {
    if f == [] {
      assert p + [] == p && q + [] == q;
    } else {
      var last := |f| - 1;
      assert f[last] in f && g[last] in g && (forall x :: x in f[..last] ==> x in f) && forall x :: x in g[..last] ==>
        x in g;
      assert f == f[..last] + [f[last]] && g == g[..last] + [g[last]];
      LastUnit(p, f[..last], f[last]);
      LastUnit(q, g[..last], g[last]);
      TailIsDetermined(p + Units(f[..last]), UNIT, f[last], q + Units(g[..last]), UNIT, g[last], Separator);
      UnitsAreDetermined(p, f[..last], q, g[..last]);
    }
  }

  lemma LastUnit(p: string, f: seq<string>, field: string)
    ensures p + Units(f + [field]) == p + Units(f) + [UNIT] + field
  {
    UnitsSnoc(f, field);
    FourParts(p, Units(f), [UNIT], field);
  }

  lemma FourParts(p: string, a: string, b: string, c: string)
    ensures p + (a + b + c) == p + a + b + c
  {
  }

  lemma SameFront(a: string, b: string, c: char)
    requires a + [c] == b + [c]
    ensures a == b
  {
    assert a == (a + [c])[..|a|] && b == (b + [c])[..|b|];
  }

  // ----- fields back to files -----

  lemma SignedIsPlain(n: int)
    ensures Plain(Signed(n)) && NUL !in Signed(n)
  {
    DecimalDigits(if n < 0 then -n else n);
  }

  lemma SevenPlain(a: string, b: string, c: string, d: string, e: string, f: string, g: string)
    requires Plain(a) && Plain(b) && Plain(c) && Plain(d) && Plain(e) && Plain(f) && Plain(g)
    ensures PlainFields([a, b, c, d, e, f, g])
  {
  }

  lemma RoleNamesArePlain(role: Role)
    ensures Plain(RoleName(role)) && Plain("missing")
  {
  }

  lemma FileFieldsArePlain(file: ListedFile)
    requires ProperDigest(file)
    ensures PlainFields(FileFields(file))
  {
    var f := file.inventory.fingerprint;
    SignedIsPlain(f.deviceID);
    SignedIsPlain(f.fileID);
    SignedIsPlain(f.byteCount);
    SignedIsPlain(f.modifiedSeconds);
    SignedIsPlain(f.modifiedNanoseconds);
    RoleNamesArePlain(file.role);
    SevenPlain(RoleName(file.role), Signed(f.deviceID), Signed(f.fileID), Signed(f.byteCount),
               Signed(f.modifiedSeconds),
               Signed(f.modifiedNanoseconds), file.inventory.digest.GetOr("missing"));
  }

  lemma RoleNamesDiffer(a: Role, b: Role)
    requires RoleName(a) == RoleName(b)
    ensures a == b
  {
    assert RoleName(Database)[0] == 'd' && RoleName(WriteAheadLog)[0] == 'w' && RoleName(SharedMemory)[0] == 's';
  }

  lemma FileIsDetermined(a: ListedFile, b: ListedFile)
    requires FileFields(a) == FileFields(b) && ProperDigest(a) && ProperDigest(b)
    ensures a == b
  {
    var f, g, x, y := FileFields(a), FileFields(b), a.inventory.fingerprint, b.inventory.fingerprint;
    assert f[0] == g[0] && f[1] == g[1] && f[2] == g[2] && f[3] == g[3] && f[4] == g[4] && f[5] == g[5] && f[6] == g[6];
    RoleNamesDiffer(a.role, b.role);
    SignedIsInjective(x.deviceID, y.deviceID);
    SignedIsInjective(x.fileID, y.fileID);
    SignedIsInjective(x.byteCount, y.byteCount);
    SignedIsInjective(x.modifiedSeconds, y.modifiedSeconds);
    SignedIsInjective(x.modifiedNanoseconds, y.modifiedNanoseconds);
  }

  lemma LastFile(p: string, files: seq<ListedFile>, file: ListedFile)
    ensures p + Units(AllFields(files + [file])) == p + Units(AllFields(files)) + Units(FileFields(file))
  {
    AllFieldsSnoc(files, file);
    UnitsJoin(AllFields(files), FileFields(file));
    Regroup(p, Units(AllFields(files)), Units(FileFields(file)));
  }

  /** A file that is not the database has others before it. */
  lemma DatabaseIsAlone(files: seq<ListedFile>)
    requires ProperFiles(files)
    ensures files[|files| - 1].role == Database <==> |files| == 1
    ensures |files| > 1 ==> ProperFiles(files[..|files| - 1])
  {
    assert forall f :: f in files[..|files| - 1] ==> f in files;
  }

  lemma FileAtTheEnd(p: string, a: ListedFile, q: string, b: ListedFile)
    requires ProperDigest(a) && ProperDigest(b) && p + Units(FileFields(a)) == q + Units(FileFields(b))
    ensures p == q && a == b
  {
    FileFieldsArePlain(a);
    FileFieldsArePlain(b);
    UnitsAreDetermined(p, FileFields(a), q, FileFields(b));
    FileIsDetermined(a, b);
  }

  lemma LastFileIsDetermined(p: string, a: seq<ListedFile>, x: ListedFile, q: string, b: seq<ListedFile>, y: ListedFile)
    requires ProperDigest(x) && ProperDigest(y) && p + Units(AllFields(a + [x])) == q + Units(AllFields(b + [y]))
    ensures x == y && p + Units(AllFields(a)) == q + Units(AllFields(b))
  {
    LastFile(p, a, x);
    LastFile(q, b, y);
    FileAtTheEnd(p + Units(AllFields(a)), x, q + Units(AllFields(b)), y);
  }

  /** Whatever the path holds: from the end, the seven fields of one file after the other, up to the database. */
  lemma {:induction false} FilesAreDetermined(p: string, a: seq<ListedFile>, q: string, b: seq<ListedFile>)
    requires ProperFiles(a) && ProperFiles(b) && p + Units(AllFields(a)) == q + Units(AllFields(b))
    ensures p == q && a == b
    decreases |a|
  {
    var i, j := |a| - 1, |b| - 1;
    assert a[i] in a && b[j] in b;
    assert a == a[..i] + [a[i]] && b == b[..j] + [b[j]];
    LastFileIsDetermined(p, a[..i], a[i], q, b[..j], b[j]);
    DatabaseIsAlone(a);
    DatabaseIsAlone(b);
    if i == 0 {
      assert p + [] == p && q + [] == q;
    } else {
      FilesAreDetermined(p, a[..i], q, b[..j]);
    }
  }

  // ----- sets and binding -----

  function IsNul(): char -> bool {
    (c: char) => c == NUL
  }

  lemma {:induction false} UnitsHoldNoNul(fields: seq<string>)
    requires PlainFields(fields)
    ensures NUL !in Units(fields)
  {
    if fields != [] {
      assert fields[0] in fields && forall x :: x in fields[1..] ==> x in fields;
      UnitsHoldNoNul(fields[1..]);
    }
  }

  lemma {:induction false} AllFieldsArePlain(files: seq<ListedFile>)
    requires forall f :: f in files ==> ProperDigest(f)
    ensures PlainFields(AllFields(files))
  {
    if files != [] {
      assert files[0] in files && forall f :: f in files[1..] ==> f in files;
      FileFieldsArePlain(files[0]);
      AllFieldsArePlain(files[1..]);
    }
  }

  /** What stands behind the identity of a set. */
  function BodyText(s: ListedSet): string {
    s.logicalPath + Units(AllFields(s.files))
  }

  lemma BodyHoldsNoNul(s: ListedSet)
    requires ProperSet(s)
    ensures NUL !in BodyText(s)
  {
    AllFieldsArePlain(s.files);
    UnitsHoldNoNul(AllFields(s.files));
  }

  lemma LastSet(sets: seq<ListedSet>)
    requires sets != []
    ensures var last := |sets| - 1;
            SetsText(sets) == SetsText(sets[..last]) + sets[last].setID + [NUL] + BodyText(sets[last]) + [RECORD]
  {
    var last := |sets| - 1;
    var s := sets[last];
    assert sets == sets[..last] + [s];
    SetsTextSnoc(sets[..last], s);
    SixParts(SetsText(sets[..last]), s.setID, [NUL], s.logicalPath, Units(AllFields(s.files)), [RECORD]);
  }

  lemma SixParts(x: string, a: string, b: string, c: string, d: string, e: string)
    ensures x + (a + b + c + d + e) == x + a + b + (c + d) + e
  {
  }

  /** The text of sets is empty or ends a record. */
  lemma SetsTextEnds(sets: seq<ListedSet>) returns (front: string)
    ensures if sets == [] then SetsText(sets) == [] else SetsText(sets) == front + [RECORD]
  {
    front := [];
    if sets != [] {
      LastSet(sets);
      var s := sets[|sets| - 1];
      front := SetsText(sets[..|sets| - 1]) + s.setID + [NUL] + BodyText(s);
    }
  }

  /** An identity and the sets before it can be told apart. */
  lemma IdentityIsDetermined(a: seq<ListedSet>, x: string, b: seq<ListedSet>, y: string)
    requires Plain(x) && Plain(y) && SetsText(a) + x == SetsText(b) + y
    ensures SetsText(a) == SetsText(b) && x == y
  {
    var f := SetsTextEnds(a);
    var g := SetsTextEnds(b);
    if a != [] && b != [] {
      TailIsDetermined(f, RECORD, x, g, RECORD, y, Separator);
    } else if a != [] {
      HoldsRecord(f, x);
      assert false;
    } else if b != [] {
      HoldsRecord(g, y);
      assert false;
    } else {
      assert [] + x == x && [] + y == y;
    }
  }

  lemma HoldsRecord(f: string, x: string)
    ensures RECORD in f + [RECORD] + x
  {
    assert (f + [RECORD] + x)[|f|] == RECORD;
  }

  lemma RecordIsDetermined(a: string, body: string, b: string, other: string)
    requires NUL !in body && NUL !in other
    requires a + [NUL] + body + [RECORD] == b + [NUL] + other + [RECORD]
    ensures a == b && body == other
  {
    SameFront(a + [NUL] + body, b + [NUL] + other, RECORD);
    TailIsDetermined(a, NUL, body, b, NUL, other, IsNul());
  }

  lemma LastBodyIsDetermined(a: seq<ListedSet>, b: seq<ListedSet>)
    requires a != [] && b != [] && SetsText(a) == SetsText(b)
    requires NUL !in BodyText(a[|a| - 1]) && NUL !in BodyText(b[|b| - 1])
    ensures BodyText(a[|a| - 1]) == BodyText(b[|b| - 1])
    ensures SetsText(a[..|a| - 1]) + a[|a| - 1].setID == SetsText(b[..|b| - 1]) + b[|b| - 1].setID
  {
    var s, t := a[|a| - 1], b[|b| - 1];
    LastSet(a);
    LastSet(b);
    RecordIsDetermined(SetsText(a[..|a| - 1]) + s.setID, BodyText(s), SetsText(b[..|b| - 1]) + t.setID, BodyText(t));
  }

  lemma BodyDetermines(s: ListedSet, t: ListedSet)
    requires ProperSet(s) && ProperSet(t) && s.setID == t.setID && BodyText(s) == BodyText(t)
    ensures s == t
  {
    FilesAreDetermined(s.logicalPath, s.files, t.logicalPath, t.files);
  }

  lemma FrontAndLast(sets: seq<ListedSet>)
    requires sets != [] && ProperSets(sets)
    ensures ProperSet(sets[|sets| - 1]) && ProperSets(sets[..|sets| - 1])
    ensures sets == sets[..|sets| - 1] + [sets[|sets| - 1]]
  {
    assert sets[|sets| - 1] in sets && forall x :: x in sets[..|sets| - 1] ==> x in sets;
  }

  lemma {:induction false} SetsAreDetermined(a: seq<ListedSet>, b: seq<ListedSet>)
    requires ProperSets(a) && ProperSets(b) && SetsText(a) == SetsText(b)
    ensures a == b
  {
    var f := SetsTextEnds(a);
    var g := SetsTextEnds(b);
    if a != [] && b != [] {
      var i, j := |a| - 1, |b| - 1;
      FrontAndLast(a);
      FrontAndLast(b);
      BodyHoldsNoNul(a[i]);
      BodyHoldsNoNul(b[j]);
      LastBodyIsDetermined(a, b);
      IdentityIsDetermined(a[..i], a[i].setID, b[..j], b[j].setID);
      BodyDetermines(a[i], b[j]);
      SetsAreDetermined(a[..i], b[..j]);
    }
  }

  lemma BindingFieldsArePlain(b: AccountBinding)
    requires ProperBinding(b)
    ensures PlainFields(BindingFields(b))
  {
    SignedIsPlain(b.formatVersion);
    assert Plain(Signed(b.formatVersion)) && Plain(b.accountID) && Plain(b.selfSourceIdentifierBase64)
      && Plain(b.evidence);
  }

  lemma BindingFieldsDetermine(a: AccountBinding, b: AccountBinding)
    requires BindingFields(a) == BindingFields(b)
    ensures a == b
  {
    var f, g := BindingFields(a), BindingFields(b);
    assert f[1] == g[1] && f[2] == g[2] && f[3] == g[3] && f[4] == g[4];
    SignedIsInjective(a.formatVersion, b.formatVersion);
  }

  lemma BindingIsDetermined(p: string, a: AccountBinding, q: string, b: AccountBinding)
    requires ProperBinding(a) && ProperBinding(b) && p + Units(BindingFields(a)) == q + Units(BindingFields(b))
    ensures p == q && a == b
  {
    BindingFieldsArePlain(a);
    BindingFieldsArePlain(b);
    UnitsAreDetermined(p, BindingFields(a), q, BindingFields(b));
    BindingFieldsDetermine(a, b);
  }

  /**
    Equal texts come from equal sets, files, fields and binding. Paths are not
    restricted: a separator in a path cannot be taken for one between fields.
   */
  lemma FingerprintDetermines(a: seq<ListedSet>, p: AccountBinding, b: seq<ListedSet>, q: AccountBinding)
    requires ProperSets(a) && ProperSets(b) && ProperBinding(p) && ProperBinding(q)
    requires FingerprintText(a, p) == FingerprintText(b, q)
    ensures a == b && p == q
  {
    BindingIsDetermined(SetsText(a) + [GROUP], p, SetsText(b) + [GROUP], q);
    SameFront(SetsText(a), SetsText(b), GROUP);
    SetsAreDetermined(a, b);
  }

  // ----- the evidence of the planner -----

  function ListedRole(files: map<Role, FileInventory>, role: Role): seq<ListedFile> {
    if role in files then [ListedFile(role, files[role])] else []
  }

  /** A set as the manifest lists it: files sorted by the name of their role, under an opaque identity. */
  function Listed(s: SetInventory, opaqueID: Path -> string): ListedSet {
    ListedSet(opaqueID(s.setID), s.logicalPath,
              ListedRole(s.files, Database) + ListedRole(s.files, SharedMemory) + ListedRole(s.files, WriteAheadLog))
  }

  /** What every inventory that was read satisfies, given hexadecimal identities and digests. */
  predicate ProperInventory(s: SetInventory, opaqueID: Path -> string) {
    && Database in s.files && Plain(opaqueID(s.setID)) && NUL !in s.logicalPath
    && forall role :: role in s.files ==> ProperDigest(ListedFile(role, s.files[role]))
  }

  lemma ListedIsProper(s: SetInventory, opaqueID: Path -> string)
    requires ProperInventory(s, opaqueID)
    ensures ProperSet(Listed(s, opaqueID))
  {
  }

  lemma RoleIsListed(s: SetInventory, opaqueID: Path -> string, role: Role, file: FileInventory)
    ensures ListedFile(role, file) in Listed(s, opaqueID).files <==> role in s.files && s.files[role] == file
  {
  }

  /** Nothing of an inventory is lost in its list. */
  lemma ListDetermines(s: SetInventory, t: SetInventory, opaqueID: Path -> string)
    requires Listed(s, opaqueID) == Listed(t, opaqueID)
      && (opaqueID(s.setID) == opaqueID(t.setID) ==> s.setID == t.setID)
    ensures s == t
  {
    forall role
      ensures role in s.files <==> role in t.files
      ensures role in s.files ==> s.files[role] == t.files[role]
    {
      if role in s.files {
        RoleIsListed(s, opaqueID, role, s.files[role]);
        RoleIsListed(t, opaqueID, role, s.files[role]);
      }
      if role in t.files {
        RoleIsListed(s, opaqueID, role, t.files[role]);
        RoleIsListed(t, opaqueID, role, t.files[role]);
      }
    }
    assert s.files == t.files;
  }

  function ListedAll(sets: seq<SetInventory>, opaqueID: Path -> string): seq<ListedSet> {
    seq(|sets|, i requires 0 <= i < |sets| => Listed(sets[i], opaqueID))
  }

  /** With collision-free identities, the text hashed for two states of the evidence tells them apart. */
  lemma EvidenceIsDetermined(a: seq<SetInventory>, p: AccountBinding, b: seq<SetInventory>, q: AccountBinding,
                             opaqueID: Path -> string)
    requires (forall s :: s in a ==> ProperInventory(s, opaqueID))
      && (forall s :: s in b ==> ProperInventory(s, opaqueID))
    requires ProperBinding(p) && ProperBinding(q) && forall x, y :: opaqueID(x) == opaqueID(y) ==> x == y
    requires FingerprintText(ListedAll(a, opaqueID), p) == FingerprintText(ListedAll(b, opaqueID), q)
    ensures a == b && p == q
  {
    var x, y := ListedAll(a, opaqueID), ListedAll(b, opaqueID);
    forall i | 0 <= i < |a|
      ensures ProperSet(x[i])
    {
      ListedIsProper(a[i], opaqueID);
    }
    forall i | 0 <= i < |b|
      ensures ProperSet(y[i])
    {
      ListedIsProper(b[i], opaqueID);
    }
    FingerprintDetermines(x, p, y, q);
    forall i | 0 <= i < |a|
      ensures a[i] == b[i]
    {
      assert x[i] == y[i];
      ListDetermines(a[i], b[i], opaqueID);
    }
  }
}
