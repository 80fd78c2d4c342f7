/**
  A bundle file that is validated once and read back later by byte range, while
  other processes may write to it (`HistorySourceFile` in
  Sources/GreenBubblesHistory/HistoryStore.swift, and the descriptor handling
  of `scanNDJSON` in Sources/GreenBubblesHistory/HistoryBundleLoader.swift).
 */
module SourceFile {
  import opened Wrappers
  import opened Sequences
  import opened Volume
  import opened LineScanner
  import Snapshot

  /** The retained descriptor and the identity its file had when it was validated. */
  datatype Source = Source(node: Inode, identity: Fingerprint)

  datatype SourceError = RangeInvalid | Changed | System(error: IOError) | Unacceptable(reason: ScanError)

  /** At instant `at` the descriptor's file had the recorded identity and this content. */
  ghost predicate Retains(trace: Trace, at: nat, source: Source, content: seq<Byte>) {
    Holds(trace, at, source.node, File(source.identity, content, true))
  }

  predicate ValidRange(source: Source, offset: nat, length: nat) {
    0 < length <= MAXIMUM_LINE_BYTES && offset <= INT64_MAX && offset + length <= source.identity.byteCount
  }

  /** What was read so far is how the file begins, if the file stood still meanwhile. */
  ghost predicate BeginsWith(trace: Trace, a: nat, b: nat, node: Inode, from: nat, part: seq<Byte>) {
    forall file :: Snapshot.Constant(trace, a, b, node, file) ==>
      from + |part| <= |file.content| && forall i :: 0 <= i < |part| ==> part[i] == file.content[from + i]
  }

  lemma NextPart(trace: Trace, a: nat, middle: nat, at: nat, b: nat, node: Inode, from: nat, part: seq<Byte>,
                 next: seq<Byte>, file: File)
    requires a <= middle <= at <= b && BeginsWith(trace, a, middle, node, from, part)
    requires Holds(trace, at, node, file) && Slice(file, from + |part|, next) && next != []
    ensures BeginsWith(trace, a, b, node, from, part + next)
  {
    forall other | Snapshot.Constant(trace, a, b, node, other)
      ensures from + |part + next| <= |other.content|
      ensures forall i :: 0 <= i < |part + next| ==> (part + next)[i] == other.content[from + i]
    {
      assert Holds(trace, at, node, other);
      assert Snapshot.Constant(trace, a, middle, node, other);
    }
  }

  lemma StandsStill(trace: Trace, a: nat, b: nat, c: nat, d: nat, node: Inode, before: File, after: File)
    requires Honest(trace) && a <= b <= c <= d
    requires Holds(trace, a, node, before) && Holds(trace, d, node, after) && before.fingerprint == after.fingerprint
    ensures Snapshot.Constant(trace, b, c, node, before) && after == before
  {
    forall k | b <= k <= c
      ensures Holds(trace, k, node, before)
    {
      FileStable(trace, a, d, node, before, after, k);
    }
    FileStable(trace, a, d, node, before, after, a);
  }

  /** The file was opened by its name in (a, b]. */
  ghost predicate OpenedFrom(trace: Trace, a: nat, b: nat, path: Path, node: Inode) {
    exists k :: a < k <= b && Names(trace, k, path, node)
  }

  // ----- validating -----

  ghost predicate Delivers(trace: Trace, a: nat, b: nat, node: Inode, content: seq<Byte>) {
    forall file :: Snapshot.Constant(trace, a, b, node, file) ==> file.content == content
  }

  /** Throughout (a, b] the descriptor's file is this one, and reads are neither refused nor interrupted. */
  ghost predicate ReadsOn(trace: Trace, a: nat, b: nat, node: Inode, file: File) {
    Steady(trace, a, b, node, file) && Uninterrupted(trace, a, b)
  }

  lemma ReadsOnWithin(trace: Trace, a: nat, b: nat, c: nat, d: nat, node: Inode)
    requires a <= b && c <= d
    ensures forall file :: ReadsOn(trace, a, d, node, file) ==> ReadsOn(trace, b, c, node, file)
  {
  }

  /** A read at the end of such a stretch is carried out. */
  lemma ReadsAtTheEnd(trace: Trace, a: nat, b: nat, node: Inode)
    requires a < b
    ensures forall file :: ReadsOn(trace, a, b, node, file) ==>
      b < |trace| && trace[b].fault.Works? && Working(trace, b) && file.regular && Holds(trace, b, node, file)
  {
    assert forall file :: ReadsOn(trace, a, b, node, file) ==> Working(trace, b);
  }

  /** The read loop of the scanner, up to the end of the file. */
  method ReadChunks(machine: Machine, node: Inode) returns (r: Result<seq<seq<Byte>>, IOError>)
    modifies machine`now
    ensures old(machine.now) < machine.now
    ensures r.Ok? ==> IsChunking(r.value, Flatten(r.value))
    ensures r.Ok? ==> Delivers(machine.trace, old(machine.now), machine.now, node, Flatten(r.value))
    ensures r.Err? ==> forall file :: !ReadsOn(machine.trace, old(machine.now), machine.now, node, file)
  {
    var chunks: seq<seq<Byte>> := [];
    ghost var content: seq<Byte> := [];
    ghost var trace, start := machine.trace, machine.now;
    while true
      invariant start == old(machine.now) <= machine.now
      invariant content == Flatten(chunks) && forall c :: c in chunks ==> 0 < |c| <= CHUNK_BYTES
      invariant BeginsWith(trace, start, machine.now, node, 0, content)
      decreases |machine.trace| - machine.now
    {
      ghost var middle := machine.now;
      var count := |Flatten(chunks)|;
      var part := machine.Read(node, count, CHUNK_BYTES);
      if part.Err? {
        ReadsAtTheEnd(trace, start, machine.now, node);
        return Err(part.error);
      }
      ghost var file :| Holds(trace, machine.now, node, file) && Slice(file, |content|, part.value);
      if part.value == [] {
        forall other | Snapshot.Constant(trace, start, machine.now, node, other)
          ensures content == other.content
        {
          assert Holds(trace, machine.now, node, other);
          assert Snapshot.Constant(trace, start, middle, node, other);
        }
        return Ok(chunks);
      }
      NextPart(trace, start, middle, machine.now, machine.now, node, 0, content, part.value, file);
      FlattenSnoc(chunks, part.value);
      chunks := chunks + [part.value];
      content := content + part.value;
    }
  }

  /** Some instant after `a` and up to `b`, the descriptor's file had the recorded identity and this content. */
  ghost predicate RetainedIn(trace: Trace, a: nat, b: nat, source: Source, content: seq<Byte>) {
    exists at: nat :: a < at <= b && Retains(trace, at, source, content)
  }

  /** Throughout (a, b] the name leads to one regular file, and reads are neither refused nor interrupted. */
  ghost predicate NameReadsOn(trace: Trace, a: nat, b: nat, path: Path) {
    PathCalm(trace, a, b, path) && Uninterrupted(trace, a, b)
  }

  lemma NamedReadsOn(trace: Trace, a: nat, openedAt: nat, b: nat, path: Path, node: Inode)
    requires WellFormed(trace) && a < openedAt <= b && Names(trace, openedAt, path, node)
    requires NameReadsOn(trace, a, b, path)
    ensures exists file :: ReadsOn(trace, a, b, node, file)
  {
    CalmDescriptor(trace, a, openedAt, b, path, node);
    var file :| Calm(trace, a, b, path, file);
    assert ReadsOn(trace, a, b, node, file);
  }

  /** The file that was read is the one its name opened, and it held the content, both in (a, b]. */
  ghost predicate ReadWhole(trace: Trace, a: nat, b: nat, path: Path, source: Source, content: seq<Byte>) {
    OpenedFrom(trace, a, b, path, source.node) && RetainedIn(trace, a, b, source, content)
  }

  /**
    Reads the file that its name opens from end to end; it is retained only
    when it looks the same before and after, and then what was read is what it held.
    While nothing happens to the file, this cannot fail.
   */
  method ReadRetained(machine: Machine, path: Path) returns (r: Result<(Source, seq<seq<Byte>>), SourceError>)
    requires Honest(machine.trace)
    modifies machine`now
    ensures old(machine.now) < machine.now
    ensures r.Ok? ==> OpenedFrom(machine.trace, old(machine.now), machine.now, path, r.value.0.node)
    ensures r.Ok? ==> IsChunking(r.value.1, Flatten(r.value.1)) && |Flatten(r.value.1)| == r.value.0.identity.byteCount
    ensures r.Ok? ==> Retains(machine.trace, machine.now, r.value.0, Flatten(r.value.1))
    ensures r.Err? ==> !NameReadsOn(machine.trace, old(machine.now), machine.now, path) && !r.error.Unacceptable?
  {
    ghost var start := machine.now;
    var descriptor := machine.Open(path);
    if descriptor.Err? {
      assert forall file :: Calm(machine.trace, start, machine.now, path, file) ==>
               Working(machine.trace, machine.now) && Shows(machine.trace, machine.now, path, file);
      return Err(System(descriptor.error));
    }
    ghost var opening := machine.now;
    r := ReadOpened(machine, descriptor.value);
    if r.Err? && NameReadsOn(machine.trace, start, machine.now, path) {
      NamedReadsOn(machine.trace, start, opening, machine.now, path, descriptor.value);
      ReadsOnWithin(machine.trace, start, opening, machine.now, machine.now, descriptor.value);
    }
  }

  method ReadOpened(machine: Machine, node: Inode) returns (r: Result<(Source, seq<seq<Byte>>), SourceError>)
    requires Honest(machine.trace)
    modifies machine`now
    ensures old(machine.now) < machine.now
    ensures r.Ok? ==> r.value.0.node == node
    ensures r.Ok? ==> IsChunking(r.value.1, Flatten(r.value.1)) && |Flatten(r.value.1)| == r.value.0.identity.byteCount
    ensures r.Ok? ==> Retains(machine.trace, machine.now, r.value.0, Flatten(r.value.1))
    ensures r.Err? ==> !r.error.Unacceptable?
    ensures r.Err? ==> forall file :: !ReadsOn(machine.trace, old(machine.now), machine.now, node, file)
  {
    ghost var start := machine.now;
    var before := machine.DescriptorStat(node);
    if before.Err? {
      ReadsAtTheEnd(machine.trace, start, machine.now, node);
      return Err(System(before.error));
    }
    ghost var a := machine.now;
    ghost var file :| Holds(machine.trace, a, node, file) && file.fingerprint == before.value && file.regular;
    assert before.value.byteCount == |file.content| by {
      assert Labelled(machine.trace[a]);
    }
    var chunks := ReadChunks(machine, node);
    if chunks.Err? {
      ReadsOnWithin(machine.trace, start, a, machine.now, machine.now, node);
      return Err(System(chunks.error));
    }
    ghost var c := machine.now;
    var after := machine.DescriptorStat(node);
    if after.Err? {
      ReadsAtTheEnd(machine.trace, start, machine.now, node);
      return Err(System(after.error));
    }
    if before.value != after.value {
      Snapshot.ChangedIsUnsteady(machine.trace, start, a, machine.now, node, before.value, after.value);
      return Err(Changed);
    }
    ghost var last :| Holds(machine.trace, machine.now, node, last) && last.fingerprint == after.value;
    StandsStill(machine.trace, a, a, c, machine.now, node, file, last);
    return Ok((Source(node, before.value), chunks.value));
  }

  /** The content was accepted, as some reading of it delivered it. */
  ghost predicate Accepted(content: seq<Byte>, evidence: Evidence, visit: Visitor, hash: seq<Byte> -> Digest) {
    exists chunks :: IsChunking(chunks, content) && Acceptable(chunks, |content|, evidence, visit, hash)
  }

  /**
    The file that was opened by its name is retained only with the content that was accepted, whatever
    was written during the scan.
   */
  method Validate(machine: Machine, path: Path, evidence: Evidence, visit: Visitor, hash: seq<Byte> -> Digest)
    returns (r: Result<(Source, seq<Record>), SourceError>, ghost content: seq<Byte>)
    requires Honest(machine.trace)
    modifies machine`now
    ensures old(machine.now) < machine.now
    ensures r.Ok? ==> OpenedFrom(machine.trace, old(machine.now), machine.now, path, r.value.0.node)
    ensures r.Ok? ==> Retains(machine.trace, machine.now, r.value.0, content)
    ensures r.Ok? ==> Accepted(content, evidence, visit, hash) && r.value.1 == Records(content)
    ensures r.Err? && !r.error.Unacceptable? ==>
      !NameReadsOn(machine.trace, old(machine.now), machine.now, path)
    ensures r.Err? && r.error.Unacceptable? ==>
      (exists source: Source :: Retains(machine.trace, machine.now, source, content))
      && exists chunks :: IsChunking(chunks, content) && !Acceptable(chunks, |content|, evidence, visit, hash)
  {
    content := [];
    var retained := ReadRetained(machine, path);
    if retained.Err? {
      return Err(retained.error), content;
    }
    var (source, chunks) := retained.value;
    content := Flatten(chunks);
    var records := ScanNDJSON(chunks, source.identity.byteCount, evidence, visit, hash);
    if records.Err? {
      return Err(Unacceptable(records.error)), content;
    }
    return Ok((source, records.value)), content;
  }

  // ----- reading back -----

  /** The bytes are the range of whatever content was retained up to instant `upTo`. */
  ghost predicate ReadsBack(trace: Trace, upTo: nat, source: Source, offset: nat, length: nat, bytes: seq<Byte>) {
    forall at: nat, content :: at <= upTo && Retains(trace, at, source, content) ==>
      offset + length <= |content| && bytes == content[offset..offset + length]
  }

  /** A read that succeeds returns the bytes that were validated, whatever was written since. */
  method ReadRange(machine: Machine, source: Source, offset: nat, length: nat)
    returns (r: Result<seq<Byte>, SourceError>)
    requires Honest(machine.trace)
    modifies machine`now
    ensures old(machine.now) <= machine.now
    ensures r == Err(RangeInvalid) <==> !ValidRange(source, offset, length)
    ensures r.Ok? ==> ReadsBack(machine.trace, old(machine.now), source, offset, length, r.value)
    ensures r.Err? && ValidRange(source, offset, length) ==>
      forall file: File :: file.fingerprint == source.identity ==>
        !ReadsOn(machine.trace, old(machine.now), machine.now, source.node, file)
  {
    if !(length > 0 && length <= MAXIMUM_LINE_BYTES && offset <= INT64_MAX
         && offset + length <= source.identity.byteCount) {
      return Err(RangeInvalid);
    }
    ghost var trace, start := machine.trace, machine.now;
    var current := machine.DescriptorStat(source.node);
    if current.Err? || current.value != source.identity {
      ReadsAtTheEnd(trace, start, machine.now, source.node);
      return Err(if current.Err? then System(current.error) else Changed);
    }
    ghost var a := machine.now;
    ghost var file :| Holds(trace, a, source.node, file) && file.fingerprint == source.identity && file.regular;
    assert |file.content| == source.identity.byteCount by {
      assert Labelled(trace[a]);
    }
    assert BeginsWith(trace, a, a, source.node, offset, []) by {
      assert forall other :: Snapshot.Constant(trace, a, a, source.node, other) ==> Holds(trace, a, source.node, other);
    }
    var bytes: seq<Byte> := [];
    while |bytes| < length
      invariant old(machine.now) < a <= machine.now && |bytes| <= length
      invariant BeginsWith(trace, a, machine.now, source.node, offset, bytes)
      decreases length - |bytes|
    {
      ghost var middle := machine.now;
      var part := machine.Read(source.node, offset + |bytes|, length - |bytes|);
      if part.Err? {
        ReadsAtTheEnd(trace, start, machine.now, source.node);
        return Err(System(part.error));
      }
      if part.value == [] {
        ReadsAtTheEnd(trace, start, machine.now, source.node);
        EndIsNotReached(trace, start, machine.now, source, offset + |bytes|);
        return Err(System(Failed("pread")));
      }
      ghost var seen :| Holds(trace, machine.now, source.node, seen) && Slice(seen, offset + |bytes|, part.value);
      NextPart(trace, a, middle, machine.now, machine.now, source.node, offset, bytes, part.value, seen);
      bytes := bytes + part.value;
    }
    ghost var c := machine.now;
    var after := machine.DescriptorStat(source.node);
    if after.Err? || after.value != source.identity {
      ReadsAtTheEnd(trace, start, machine.now, source.node);
      return Err(if after.Err? then System(after.error) else Changed);
    }
    ghost var last :| Holds(trace, machine.now, source.node, last) && last.fingerprint == source.identity;
    StandsStill(trace, a, a, c, machine.now, source.node, file, last);
    AssembledRange(trace, old(machine.now), a, c, source, offset, bytes, file);
    return Ok(bytes);
  }

  /** A read within the recorded length that delivers nothing shows that the file is not the recorded one. */
  lemma EndIsNotReached(trace: Trace, a: nat, b: nat, source: Source, offset: nat)
    requires WellFormed(trace) && a < b && offset < source.identity.byteCount
    requires exists file :: Holds(trace, b, source.node, file) && Slice(file, offset, [])
    ensures forall file: File :: file.fingerprint == source.identity ==> !ReadsOn(trace, a, b, source.node, file)
  {
    ReadsAtTheEnd(trace, a, b, source.node);
    assert Labelled(trace[b]);
  }

  lemma AssembledRange(trace: Trace, upTo: nat, a: nat, c: nat, source: Source, offset: nat, bytes: seq<Byte>,
                       file: File)
    requires Honest(trace) && upTo <= a && Holds(trace, a, source.node, file) && file.fingerprint == source.identity
      && file.regular
    requires Snapshot.Constant(trace, a, c, source.node, file) && BeginsWith(trace, a, c, source.node, offset, bytes)
    ensures ReadsBack(trace, upTo, source, offset, |bytes|, bytes)
  {
    assert bytes == file.content[offset..offset + |bytes|];
    forall at: nat, content | at <= upTo && Retains(trace, at, source, content)
      ensures content == file.content
    {
      FileStable(trace, at, a, source.node, File(source.identity, content, true), file, a);
    }
  }

  /** Every record that was visited can be read back by its range, and no range of a record is refused. */
  lemma RecordsReadBack(trace: Trace, at: nat, source: Source, content: seq<Byte>, evidence: Evidence, visit: Visitor,
                        hash: seq<Byte> -> Digest, r: Record)
    requires Honest(trace) && Retains(trace, at, source, content) && Accepted(content, evidence, visit, hash)
    requires r in Records(content) && |content| <= INT64_MAX
    ensures ValidRange(source, r.offset, r.length)
    ensures content[r.offset..r.offset + r.length] == r.data
  {
    RecordsSliceTheFile(content, 0, r);
    AllFitMeans(visit, Records(content));
    assert Labelled(trace[at]);
  }
}
