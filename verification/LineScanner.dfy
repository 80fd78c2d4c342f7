/**
  Scanning a newline-delimited file in chunks
  (Sources/GreenBubblesHistory/HistoryBundleLoader.swift, `scanNDJSON`),
  against splitting the whole file at its newlines.
 */
module LineScanner {
  import opened Wrappers
  import opened Sequences
  import opened Volume

  const LF: Byte := 0x0A
  const CR: Byte := 0x0D
  const CHUNK_BYTES: nat := 1024 * 1024
  const MAXIMUM_LINE_BYTES: nat := 16 * 1024 * 1024
  const INT64_MAX: nat := 0x7FFF_FFFF_FFFF_FFFF

  /** A visited record: its bytes and where the file holds them. */
  datatype Record = Record(data: seq<Byte>, offset: nat, length: nat)

  // ----- the simple form -----

  function FindNewline(s: seq<Byte>, from: nat): (r: Option<nat>)
    requires from <= |s|
    ensures r.Some? ==> from <= r.value < |s| && s[r.value] == LF
    decreases |s| - from
  {
    if from == |s| then None
    else if s[from] == LF then Some(from)
    else FindNewline(s, from + 1)
  }

  lemma {:induction false} FindNewlineIsFirst(s: seq<Byte>, from: nat)
    requires from <= |s|
    ensures FindNewline(s, from).Some? ==> forall i :: from <= i < FindNewline(s, from).value ==> s[i] != LF
    ensures FindNewline(s, from).None? ==> forall i :: from <= i < |s| ==> s[i] != LF
    decreases |s| - from
  {
    if from < |s| && s[from] != LF {
      FindNewlineIsFirst(s, from + 1);
    }
  }

  /** A line without its optional carriage return. */
  function Strip(line: seq<Byte>): seq<Byte> {
    if line != [] && line[|line| - 1] == CR then line[..|line| - 1] else line
  }

  function RecordAt(file: seq<Byte>, start: nat, end: nat): Record
    requires start <= end <= |file|
  {
    var data := Strip(file[start..end]);
    Record(data, start, |data|)
  }

  /** The newline-terminated records of the file from position `at` on. */
  function RecordsFrom(file: seq<Byte>, at: nat): seq<Record>
    requires at <= |file|
    decreases |file| - at
  {
    match FindNewline(file, at)
    case None => []
    case Some(n) => [RecordAt(file, at, n)] + RecordsFrom(file, n + 1)
  }

  function Records(file: seq<Byte>): seq<Record> {
    RecordsFrom(file, 0)
  }

  predicate Terminated(file: seq<Byte>) {
    file == [] || file[|file| - 1] == LF
  }

  /** Where the line begins that position `at` lies in. */
  function LineStart(file: seq<Byte>, at: nat): (start: nat)
    requires at <= |file|
    ensures start <= at && (start == 0 || file[start - 1] == LF)
    ensures forall i :: start <= i < at ==> file[i] != LF
  {
    if at == 0 || file[at - 1] == LF then at else LineStart(file, at - 1)
  }

  lemma LineStartIs(file: seq<Byte>, start: nat, at: nat)
    requires start <= at <= |file| && (start == 0 || file[start - 1] == LF)
    requires forall i :: start <= i < at ==> file[i] != LF
    ensures LineStart(file, at) == start
  {
    var found := LineStart(file, at);
    assert start > 0 && found < start ==> found <= start - 1 < at;
  }

  /**
    The record is the slice of the file at `start`, ended by LF or CR LF, and `next` is where the next line
    begins. A carriage return before the LF is never part of it.
   */
  ghost predicate IsLine(file: seq<Byte>, r: Record, start: nat, next: nat) {
    var end := start + r.length;
    && r.offset == start && r.length == |r.data| && end < next <= |file| && r.data == file[start..end] && LF !in r.data
    && file[next - 1] == LF
    && ((next == end + 1 && (r.data == [] || r.data[|r.data| - 1] != CR)) || (next == end + 2 && file[end] == CR))
  }

  /** Where the line after a record of this length begins. */
  function NextStart(file: seq<Byte>, start: nat, length: nat): nat {
    if start + length < |file| && file[start + length] == LF then start + length + 1 else start + length + 2
  }

  /** The records are consecutive slices separated by LF or CR LF, and hold no newline themselves. */
  ghost predicate AreConsecutive(file: seq<Byte>, records: seq<Record>, start: nat) {
    if records == [] then start == |file|
    else
      var next := NextStart(file, start, records[0].length);
      IsLine(file, records[0], start, next) && AreConsecutive(file, records[1..], next)
  }

  /** The record of a line is what stands before its LF or CR LF. */
  lemma RecordShape(file: seq<Byte>, at: nat, n: nat)
    requires at <= |file| && FindNewline(file, at) == Some(n)
    ensures var r := RecordAt(file, at, n);
            && r.data == file[at..at + r.length] && LF !in r.data
            && ((at + r.length == n && (r.data == [] || r.data[|r.data| - 1] != CR))
                || (at + r.length + 1 == n && file[at + r.length] == CR))
  {
    FindNewlineIsFirst(file, at);
    var line := file[at..n];
    assert line != [] ==> line[|line| - 1] == file[n - 1] && line[..|line| - 1] == file[at..n - 1];
  }

  lemma RecordIsLine(file: seq<Byte>, at: nat, n: nat)
    requires at <= |file| && FindNewline(file, at) == Some(n)
    ensures IsLine(file, RecordAt(file, at, n), at, n + 1)
    ensures NextStart(file, at, RecordAt(file, at, n).length) == n + 1
  {
    RecordShape(file, at, n);
  }

  lemma NothingLeft(file: seq<Byte>, at: nat)
    requires at <= |file| && Terminated(file) && FindNewline(file, at).None?
    ensures at == |file|
  {
    FindNewlineIsFirst(file, at);
  }

  lemma ConsecutiveStep(file: seq<Byte>, at: nat, r: Record, next: nat, rest: seq<Record>)
    requires IsLine(file, r, at, next) && NextStart(file, at, r.length) == next && AreConsecutive(file, rest, next)
    ensures AreConsecutive(file, [r] + rest, at)
  {
    assert ([r] + rest)[1..] == rest;
  }

  lemma RecordsStep(file: seq<Byte>, at: nat, n: nat)
    requires at <= |file| && FindNewline(file, at) == Some(n)
    ensures RecordsFrom(file, at) == [RecordAt(file, at, n)] + RecordsFrom(file, n + 1)
  {
  }

  lemma {:induction false} RecordsAreConsecutive(file: seq<Byte>, at: nat)
    requires at <= |file| && Terminated(file)
    ensures AreConsecutive(file, RecordsFrom(file, at), at)
    decreases |file| - at
  {
    match FindNewline(file, at) {
      case None =>
        NothingLeft(file, at);
      case Some(n) =>
        RecordsAreConsecutive(file, n + 1);
        RecordIsLine(file, at, n);
        RecordsStep(file, at, n);
        ConsecutiveStep(file, at, RecordAt(file, at, n), n + 1, RecordsFrom(file, n + 1));
    }
  }

  /** A line determines its record. */
  lemma OneRecordPerLine(file: seq<Byte>, a: Record, b: Record, start: nat, next: nat, other: nat)
    requires IsLine(file, a, start, next) && IsLine(file, b, start, other)
    ensures a == b && next == other
  {
    LineEndsFirst(file, a, start, next);
    LineEndsFirst(file, b, start, other);
    assert a.length > 0 ==> a.data[a.length - 1] == file[start + a.length - 1];
    assert b.length > 0 ==> b.data[b.length - 1] == file[start + b.length - 1];
  }

  lemma LineEndsFirst(file: seq<Byte>, r: Record, start: nat, next: nat)
    requires IsLine(file, r, start, next)
    ensures forall i :: start <= i < next - 1 ==> file[i] != LF
  {
    forall i | start <= i < start + r.length
      ensures file[i] != LF
    {
      assert r.data[i - start] == file[i] && r.data[i - start] in r.data;
    }
  }

  /** Nothing but the records of a file are its consecutive lines. */
  lemma {:induction false} ConsecutiveIsUnique(file: seq<Byte>, a: seq<Record>, b: seq<Record>, start: nat)
    requires AreConsecutive(file, a, start) && AreConsecutive(file, b, start)
    ensures a == b
    decreases |a|
  {
    if a != [] && b != [] {
      var next, other := NextStart(file, start, a[0].length), NextStart(file, start, b[0].length);
      OneRecordPerLine(file, a[0], b[0], start, next, other);
      ConsecutiveIsUnique(file, a[1..], b[1..], next);
    }
  }

  /** Reading a record's range back gives exactly its bytes. */
  lemma {:induction false} RecordsSliceTheFile(file: seq<Byte>, at: nat, r: Record)
    requires at <= |file| && r in RecordsFrom(file, at)
    ensures r.length == |r.data| && at <= r.offset && r.offset + r.length <= |file|
    ensures file[r.offset..r.offset + r.length] == r.data
    decreases |file| - at
  {
    match FindNewline(file, at) {
      case None =>
      case Some(n) =>
        FirstOrRest(RecordAt(file, at, n), RecordsFrom(file, n + 1), r);
        if r == RecordAt(file, at, n) {
          RecordShape(file, at, n);
        } else {
          RecordsSliceTheFile(file, n + 1, r);
        }
    }
  }

  lemma FirstOrRest<T>(first: T, rest: seq<T>, x: T)
    ensures x in [first] + rest <==> x == first || x in rest
  {
  }

  // ----- chunks -----

  ghost predicate IsChunking(chunks: seq<seq<Byte>>, file: seq<Byte>) {
    Flatten(chunks) == file && forall c :: c in chunks ==> 0 < |c| <= CHUNK_BYTES
  }

  /** How much of the file the first `i` chunks delivered. */
  function Delivered(chunks: seq<seq<Byte>>, i: nat): nat
    requires i <= |chunks|
  {
    |Flatten(chunks[..i])|
  }

  lemma DeliveredPrefix(chunks: seq<seq<Byte>>, i: nat)
    requires i <= |chunks|
    ensures Flatten(chunks) == Flatten(chunks[..i]) + Flatten(chunks[i..])
    ensures Delivered(chunks, i) <= |Flatten(chunks)|
    ensures i < |chunks| ==> Flatten(chunks[..i + 1]) == Flatten(chunks[..i]) + chunks[i]
  {
    FlattenAppend(chunks[..i], chunks[i..]);
    assert chunks[..i] + chunks[i..] == chunks;
    if i < |chunks| {
      FlattenSnoc(chunks[..i], chunks[i]);
      assert chunks[..i + 1] == chunks[..i] + [chunks[i]];
    }
  }

  /** After each read, the unfinished line that stays buffered is within the limit. */
  ghost predicate ResidualFits(chunks: seq<seq<Byte>>, i: nat)
    requires i < |chunks|
  {
    DeliveredPrefix(chunks, i + 1);
    var b := Delivered(chunks, i + 1);
    b - LineStart(Flatten(chunks), b) <= MAXIMUM_LINE_BYTES
  }

  ghost predicate ResidualsFit(chunks: seq<seq<Byte>>) {
    forall i :: 0 <= i < |chunks| ==> ResidualFits(chunks, i)
  }

  /** Every line, an optional carriage return included, is within the limit. */
  ghost predicate RawLinesFit(file: seq<Byte>) {
    forall b :: 0 <= b <= |file| ==> b - LineStart(file, b) <= MAXIMUM_LINE_BYTES
  }

  function Bytewise(file: seq<Byte>): seq<seq<Byte>> {
    seq(|file|, i requires 0 <= i < |file| => [file[i]])
  }

  lemma {:induction false} BytewiseIsChunking(file: seq<Byte>)
    ensures IsChunking(Bytewise(file), file)
  {
    if file != [] {
      BytewiseIsChunking(file[1..]);
      assert Bytewise(file)[1..] == Bytewise(file[1..]);
      assert [file[0]] + file[1..] == file;
    }
  }

  /** Read byte by byte, every position of the file is a residual. */
  lemma BytewiseResiduals(file: seq<Byte>)
    ensures ResidualsFit(Bytewise(file)) <==> RawLinesFit(file)
  {
    var chunks := Bytewise(file);
    BytewiseIsChunking(file);
    forall i | 0 <= i < |file|
      ensures ResidualFits(chunks, i) <==> i + 1 - LineStart(file, i + 1) <= MAXIMUM_LINE_BYTES
    {
      assert chunks[..i + 1] == Bytewise(file[..i + 1]);
      BytewiseIsChunking(file[..i + 1]);
    }
    if ResidualsFit(chunks) {
      forall b | 0 <= b <= |file|
        ensures b - LineStart(file, b) <= MAXIMUM_LINE_BYTES
      {
        assert b > 0 ==> ResidualFits(chunks, b - 1);
      }
    }
  }

  /** Buffering never depends on how reads split the file exactly when the raw lines fit the limit. */
  lemma ChunkIndependence(file: seq<Byte>)
    ensures (forall chunks :: IsChunking(chunks, file) ==> ResidualsFit(chunks)) <==> RawLinesFit(file)
  {
    if RawLinesFit(file) {
      forall chunks | IsChunking(chunks, file)
        ensures ResidualsFit(chunks)
      {
        forall i | 0 <= i < |chunks|
          ensures ResidualFits(chunks, i)
        {
          DeliveredPrefix(chunks, i + 1);
        }
      }
    }
    BytewiseIsChunking(file);
    BytewiseResiduals(file);
  }

  // ----- the carriage return -----

  function Repeat(b: Byte, n: nat): seq<Byte> {
    seq(n, _ => b)
  }

  /** A line of exactly the limit, ended by CR LF. */
  function LongestLine(b: Byte): seq<Byte> {
    Repeat(b, MAXIMUM_LINE_BYTES) + [CR, LF]
  }

  /** The same line read in full chunks, its line end arriving last. */
  function WholeChunks(b: Byte, n: nat): seq<seq<Byte>> {
    seq(n, _ => Repeat(b, CHUNK_BYTES))
  }

  lemma {:induction false} WholeChunksDeliver(b: Byte, n: nat)
    ensures Flatten(WholeChunks(b, n)) == Repeat(b, n * CHUNK_BYTES)
  {
    if n > 0 {
      WholeChunksDeliver(b, n - 1);
      assert WholeChunks(b, n) == WholeChunks(b, n - 1) + [Repeat(b, CHUNK_BYTES)];
      FlattenSnoc(WholeChunks(b, n - 1), Repeat(b, CHUNK_BYTES));
      assert n * CHUNK_BYTES == (n - 1) * CHUNK_BYTES + CHUNK_BYTES;
    }
  }

  lemma LongestLineStart(b: Byte, at: nat)
    requires b != LF && at <= MAXIMUM_LINE_BYTES + 1
    ensures LineStart(LongestLine(b), at) == 0
  {
    LineStartIs(LongestLine(b), 0, at);
  }

  lemma WholeChunksFit(b: Byte, i: nat)
    requires b != LF && b != CR && i <= 16
    ensures ResidualFits(WholeChunks(b, 16) + [[CR, LF]], i)
  {
    var file, chunks := LongestLine(b), WholeChunks(b, 16) + [[CR, LF]];
    WholeChunksDeliver(b, 16);
    FlattenSnoc(WholeChunks(b, 16), [CR, LF]);
    if i < 16 {
      assert chunks[..i + 1] == WholeChunks(b, i + 1);
      WholeChunksDeliver(b, i + 1);
      LongestLineStart(b, (i + 1) * CHUNK_BYTES);
    } else {
      assert chunks[..17] == chunks;
      LineStartIs(file, |file|, |file|);
    }
  }

  /** The record fits the limit, and whether its line is buffered depends on how the file is read. */
  lemma CarriageReturnBuffered(b: Byte)
    requires b != LF && b != CR
    ensures var chunks := WholeChunks(b, 16) + [[CR, LF]]; IsChunking(chunks, LongestLine(b)) && ResidualsFit(chunks)
    ensures IsChunking(Bytewise(LongestLine(b)), LongestLine(b)) && !ResidualsFit(Bytewise(LongestLine(b)))
  {
    var file, chunks := LongestLine(b), WholeChunks(b, 16) + [[CR, LF]];
    WholeChunksDeliver(b, 16);
    FlattenSnoc(WholeChunks(b, 16), [CR, LF]);
    forall i | 0 <= i < |chunks|
      ensures ResidualFits(chunks, i)
    {
      WholeChunksFit(b, i);
    }
    BytewiseIsChunking(file);
    LongestLineStart(b, MAXIMUM_LINE_BYTES + 1);
    assert MAXIMUM_LINE_BYTES + 1 - LineStart(file, MAXIMUM_LINE_BYTES + 1) > MAXIMUM_LINE_BYTES;
    BytewiseResiduals(file);
  }

  // ----- the scanner -----

  datatype Evidence = Evidence(byteCount: nat, recordCount: nat, sha256: Digest)

  /** The caller's visitor may look at what it was shown before. */
  type Visitor = (seq<Record>, Record) -> bool

  datatype ScanError =
    | SizeMismatch
    | EmptyRecord
    | RecordTooLong
    | RecordRefused
    | UnterminatedRecord
    | EvidenceMismatch

  ghost predicate RecordFits(visit: Visitor, before: seq<Record>, r: Record) {
    r.data != [] && |r.data| <= MAXIMUM_LINE_BYTES && visit(before, r)
  }

  /** Every record fits, each shown after the ones before it. */
  ghost predicate AllFit(visit: Visitor, records: seq<Record>) {
    records == [] ||
    (AllFit(visit, records[..|records| - 1]) && RecordFits(visit, records[..|records| - 1], records[|records| - 1]))
  }

  lemma {:induction false} AllFitMeans(visit: Visitor, records: seq<Record>)
    ensures AllFit(visit, records) <==> forall i :: 0 <= i < |records| ==> RecordFits(visit, records[..i], records[i])
  {
    if records != [] {
      var front := records[..|records| - 1];
      AllFitMeans(visit, front);
      assert forall i :: 0 <= i < |front| ==> front[..i] == records[..i] && front[i] == records[i];
    }
  }

  lemma {:induction false} PrefixFits(visit: Visitor, records: seq<Record>, i: nat)
    requires AllFit(visit, records) && i < |records|
    ensures RecordFits(visit, records[..i], records[i])
  {
    AllFitMeans(visit, records);
  }

  /** What the scanner asks of a file and of how it was read. */
  ghost predicate Acceptable(chunks: seq<seq<Byte>>, size: nat, evidence: Evidence, visit: Visitor,
                             hash: seq<Byte> -> Digest) {
    var file := Flatten(chunks);
    && size == evidence.byteCount == |file| && |Records(file)| == evidence.recordCount && hash(file) == evidence.sha256
    && Terminated(file) && ResidualsFit(chunks) && AllFit(visit, Records(file))
  }

  /** A file is accepted however it is read exactly when it meets the counts and its raw lines fit. */
  lemma AcceptedHoweverRead(file: seq<Byte>, size: nat, evidence: Evidence, visit: Visitor, hash: seq<Byte> -> Digest)
    ensures (forall chunks :: IsChunking(chunks, file) ==> Acceptable(chunks, size, evidence, visit, hash))
       <==> (size == evidence.byteCount == |file| && |Records(file)| == evidence.recordCount
             && hash(file) == evidence.sha256
             && Terminated(file) && AllFit(visit, Records(file)) && RawLinesFit(file))
  {
    ChunkIndependence(file);
    BytewiseIsChunking(file);
    if forall chunks :: IsChunking(chunks, file) ==> Acceptable(chunks, size, evidence, visit, hash) {
      assert Acceptable(Bytewise(file), size, evidence, visit, hash);
    }
  }

  lemma LongestRecords(b: Byte)
    requires b != LF && b != CR
    ensures Records(LongestLine(b)) == [Record(Repeat(b, MAXIMUM_LINE_BYTES), 0, MAXIMUM_LINE_BYTES)]
    ensures Terminated(LongestLine(b))
  {
    var file, n := LongestLine(b), MAXIMUM_LINE_BYTES + 1;
    FindNewlineIs(file, 0, n);
    assert file[0..n] == Repeat(b, MAXIMUM_LINE_BYTES) + [CR];
    assert Strip(file[0..n]) == Repeat(b, MAXIMUM_LINE_BYTES);
    assert RecordsFrom(file, n + 1) == [];
  }

  /**
    One file, one set of counts, one digest: a line of exactly the limit ended
    by CR LF is accepted read in full chunks and refused read byte by byte.
   */
  lemma CarriageReturnCounts(b: Byte, hash: seq<Byte> -> Digest)
    requires b != LF && b != CR
    ensures var file, chunks := LongestLine(b), WholeChunks(b, 16) + [[CR, LF]];
            var evidence := Evidence(|file|, 1, hash(file));
            && IsChunking(chunks, file) && IsChunking(Bytewise(file), file)
            && Acceptable(chunks, |file|, evidence, (before, r) => true, hash)
            && !Acceptable(Bytewise(file), |file|, evidence, (before, r) => true, hash)
  {
    CarriageReturnBuffered(b);
    LongestRecords(b);
    AllFitMeans((before, r) => true, Records(LongestLine(b)));
  }

  /** The buffer holds the file from its offset to what was read. */
  ghost predicate Buffered(file: seq<Byte>, delivered: nat, pending: seq<Byte>, pendingOffset: nat) {
    pendingOffset + |pending| == delivered <= |file| && forall i :: 0 <= i < |pending| ==>
      pending[i] == file[pendingOffset + i]
  }

  /** The records before position `at`, where a line begins, were visited. */
  ghost predicate VisitedUpTo(file: seq<Byte>, at: nat, visited: seq<Record>, visit: Visitor) {
    && at <= |file| && (at == 0 || file[at - 1] == LF)
    && Records(file) == visited + RecordsFrom(file, at)
    && AllFit(visit, visited)
  }

  /** No newline is left in the buffer after `cursor`. */
  ghost predicate Exhausted(pending: seq<Byte>, cursor: nat) {
    cursor <= |pending| && forall i :: cursor <= i < |pending| ==> pending[i] != LF
  }

  lemma {:induction false} FindNewlineIs(s: seq<Byte>, from: nat, n: nat)
    requires from <= n < |s| && s[n] == LF && forall i :: from <= i < n ==> s[i] != LF
    ensures FindNewline(s, from) == Some(n)
    decreases n - from
  {
    if from < n {
      FindNewlineIs(s, from + 1, n);
    }
  }

  /** A newline found in the buffer ends the line of the file that starts at the cursor. */
  lemma BufferedLine(file: seq<Byte>, delivered: nat, pending: seq<Byte>, pendingOffset: nat, cursor: nat, newline: nat)
    requires Buffered(file, delivered, pending, pendingOffset) && cursor <= newline < |pending|
    requires FindNewline(pending, cursor) == Some(newline)
    ensures FindNewline(file, pendingOffset + cursor) == Some(pendingOffset + newline)
    ensures file[pendingOffset + newline] == LF
    ensures file[pendingOffset + cursor..pendingOffset + newline] == pending[cursor..newline]
  {
    var at, n := pendingOffset + cursor, pendingOffset + newline;
    FindNewlineIsFirst(pending, cursor);
    forall i | at <= i < n
      ensures file[i] == pending[i - pendingOffset] != LF
    {
    }
    assert file[n] == pending[newline];
    FindNewlineIs(file, at, n);
    SameSlices(file, at, pending, cursor, n - at);
  }

  lemma SameSlices<T>(s: seq<T>, i: nat, t: seq<T>, j: nat, n: nat)
    requires i + n <= |s| && j + n <= |t| && forall k :: i <= k < i + n ==> s[k] == t[j + (k - i)]
    ensures s[i..i + n] == t[j..j + n]
  {
    var x, y := s[i..i + n], t[j..j + n];
    forall k | 0 <= k < n
      ensures x[k] == y[k]
    {
      assert s[i + k] == t[j + k];
    }
  }

  lemma AllFitSnoc(visit: Visitor, visited: seq<Record>, r: Record)
    requires AllFit(visit, visited) && RecordFits(visit, visited, r)
    ensures AllFit(visit, visited + [r])
  {
    assert (visited + [r])[..|visited|] == visited;
  }

  lemma Regroup<T>(all: seq<T>, before: seq<T>, x: T, after: seq<T>)
    requires all == before + ([x] + after)
    ensures |before| < |all| && all[..|before|] == before && all[|before|] == x && all == (before + [x]) + after
  {
  }

  lemma NextRecord(file: seq<Byte>, at: nat, n: nat, visited: seq<Record>, visit: Visitor)
    requires VisitedUpTo(file, at, visited, visit) && at <= n < |file| && file[n] == LF
      && FindNewline(file, at) == Some(n)
    ensures RecordFits(visit, visited, RecordAt(file, at, n)) ==>
      VisitedUpTo(file, n + 1, visited + [RecordAt(file, at, n)], visit)
    ensures !RecordFits(visit, visited, RecordAt(file, at, n)) ==> !AllFit(visit, Records(file))
  {
    var r, rest := RecordAt(file, at, n), RecordsFrom(file, n + 1);
    assert Records(file) == visited + ([r] + rest) by {
      assert RecordsFrom(file, at) == [r] + rest;
    }
    Regroup(Records(file), visited, r, rest);
    if RecordFits(visit, visited, r) {
      AllFitSnoc(visit, visited, r);
    } else if AllFit(visit, Records(file)) {
      PrefixFits(visit, Records(file), |visited|);
      assert false;
    }
  }

  /** The record the scanner takes out of its buffer. */
  function BufferedRecord(pending: seq<Byte>, pendingOffset: nat, cursor: nat, newline: nat): Record
    requires cursor <= newline <= |pending|
  {
    var contentEnd := if newline > cursor && pending[newline - 1] == CR then newline - 1 else newline;
    Record(pending[cursor..contentEnd], pendingOffset + cursor, contentEnd - cursor)
  }

  lemma BufferedRecordIs(file: seq<Byte>, pending: seq<Byte>, pendingOffset: nat, cursor: nat, newline: nat)
    requires cursor <= newline <= |pending| && pendingOffset + newline <= |file|
    requires file[pendingOffset + cursor..pendingOffset + newline] == pending[cursor..newline]
    ensures BufferedRecord(pending, pendingOffset, cursor, newline)
      == RecordAt(file, pendingOffset + cursor, pendingOffset + newline)
  {
    var line := pending[cursor..newline];
    assert line != [] ==>
      line[|line| - 1] == pending[newline - 1] && line[..|line| - 1] == pending[cursor..newline - 1];
  }

  /** Takes the line before a newline out of the buffer and shows its record to the visitor. */
  method TakeLine(pending: seq<Byte>, pendingOffset: nat, cursor: nat, newline: nat, visited: seq<Record>,
                  visit: Visitor,
                  ghost file: seq<Byte>)
    returns (r: Result<Record, ScanError>)
    requires cursor <= newline < |pending| && pendingOffset + newline < |file|
    requires file[pendingOffset + cursor..pendingOffset + newline] == pending[cursor..newline]
    ensures r.Ok? <==> RecordFits(visit, visited, RecordAt(file, pendingOffset + cursor, pendingOffset + newline))
    ensures r.Ok? ==> r.value == RecordAt(file, pendingOffset + cursor, pendingOffset + newline)
  {
    BufferedRecordIs(file, pending, pendingOffset, cursor, newline);
    var contentEnd := newline;
    if contentEnd > cursor && pending[contentEnd - 1] == CR {
      contentEnd := contentEnd - 1;
    }
    if contentEnd <= cursor {
      return Err(EmptyRecord);
    }
    var length := contentEnd - cursor;
    if length > MAXIMUM_LINE_BYTES {
      return Err(RecordTooLong);
    }
    var record := Record(pending[cursor..contentEnd], pendingOffset + cursor, length);
    return if visit(visited, record) then Ok(record) else Err(RecordRefused);
  }

  method VisitLine(pending: seq<Byte>, pendingOffset: nat, cursor: nat, newline: nat, visited: seq<Record>,
                   visit: Visitor,
                   ghost file: seq<Byte>)
    returns (r: Result<seq<Record>, ScanError>)
    requires cursor <= newline < |pending| && pendingOffset + newline < |file|
    requires file[pendingOffset + cursor..pendingOffset + newline] == pending[cursor..newline]
    requires FindNewline(file, pendingOffset + cursor) == Some(pendingOffset + newline)
    requires VisitedUpTo(file, pendingOffset + cursor, visited, visit)
    ensures r.Ok? ==> VisitedUpTo(file, pendingOffset + (newline + 1), r.value, visit)
    ensures r.Err? ==> !AllFit(visit, Records(file))
  {
    var line := TakeLine(pending, pendingOffset, cursor, newline, visited, visit, file);
    NextRecord(file, pendingOffset + cursor, pendingOffset + newline, visited, visit);
    return if line.Ok? then Ok(visited + [line.value]) else Err(line.error);
  }

  /** The inner loop: visits every line that is complete in the buffer. */
  method VisitLines(pending: seq<Byte>, pendingOffset: nat, start: nat, before: seq<Record>, visit: Visitor,
                    ghost file: seq<Byte>, ghost delivered: nat)
    returns (r: Result<seq<Record>, ScanError>, cursor: nat)
    requires Buffered(file, delivered, pending, pendingOffset) && start <= |pending|
    requires VisitedUpTo(file, pendingOffset + start, before, visit)
    ensures r.Ok? ==> VisitedUpTo(file, pendingOffset + cursor, r.value, visit) && Exhausted(pending, cursor)
    ensures r.Err? ==> !AllFit(visit, Records(file))
  {
    cursor := start;
    var visited := before;
    while cursor < |pending|
      invariant cursor <= |pending|
      invariant VisitedUpTo(file, pendingOffset + cursor, visited, visit)
      decreases |pending| - cursor
    {
      var found := FindNewline(pending, cursor);
      FindNewlineIsFirst(pending, cursor);
      if found.None? {
        break;
      }
      var newline := found.value;
      BufferedLine(file, delivered, pending, pendingOffset, cursor, newline);
      var line := VisitLine(pending, pendingOffset, cursor, newline, visited, visit, file);
      if line.Err? {
        return line, cursor;
      }
      visited := line.value;
      cursor := newline + 1;
    }
    return Ok(visited), cursor;
  }

  /** What the loop keeps between two reads. */
  ghost predicate Between(chunks: seq<seq<Byte>>, i: nat, hashed: seq<Byte>, pending: seq<Byte>, pendingOffset: nat,
                          cursor: nat,
                          visited: seq<Record>, visit: Visitor)
    requires i <= |chunks|
  {
    var file := Flatten(chunks);
    && hashed == Flatten(chunks[..i]) && Buffered(file, |hashed|, pending, pendingOffset)
    && VisitedUpTo(file, pendingOffset + cursor, visited, visit) && Exhausted(pending, cursor)
    && ResidualsFitUpTo(chunks, i)
  }

  /**
    Of the visited bytes fewer than four chunks stay buffered, and of the unfinished line no more than a
    line may have.
   */
  predicate BufferIsBounded(pending: seq<Byte>, cursor: nat) {
    cursor < 4 * CHUNK_BYTES && |pending| - cursor <= MAXIMUM_LINE_BYTES
  }

  ghost predicate ResidualsFitUpTo(chunks: seq<seq<Byte>>, i: nat)
    requires i <= |chunks|
  {
    i == 0 || (ResidualsFitUpTo(chunks, i - 1) && ResidualFits(chunks, i - 1))
  }

  lemma {:induction false} ResidualsFitUpToMeans(chunks: seq<seq<Byte>>, i: nat)
    requires i <= |chunks|
    ensures ResidualsFitUpTo(chunks, i) <==> forall j :: 0 <= j < i ==> ResidualFits(chunks, j)
  {
    if i > 0 {
      ResidualsFitUpToMeans(chunks, i - 1);
    }
  }

  lemma ReadNext(chunks: seq<seq<Byte>>, i: nat, pending: seq<Byte>, pendingOffset: nat)
    requires i < |chunks| && Buffered(Flatten(chunks), Delivered(chunks, i), pending, pendingOffset)
    ensures Flatten(chunks[..i + 1]) == Flatten(chunks[..i]) + chunks[i]
    ensures Buffered(Flatten(chunks), Delivered(chunks, i + 1), pending + chunks[i], pendingOffset)
  {
    DeliveredPrefix(chunks, i);
    DeliveredPrefix(chunks, i + 1);
    Extended(Flatten(chunks), Flatten(chunks[..i]), chunks[i], Flatten(chunks[i + 1..]), pending, pendingOffset);
  }

  lemma Extended(file: seq<Byte>, before: seq<Byte>, chunk: seq<Byte>, after: seq<Byte>, pending: seq<Byte>,
                 pendingOffset: nat)
    requires file == before + chunk + after && Buffered(file, |before|, pending, pendingOffset)
    ensures Buffered(file, |before + chunk|, pending + chunk, pendingOffset)
  {
    forall i | 0 <= i < |pending + chunk|
      ensures (pending + chunk)[i] == file[pendingOffset + i]
    {
      if i >= |pending| {
        assert file[pendingOffset + i] == (before + chunk)[pendingOffset + i] == chunk[i - |pending|];
      }
    }
  }

  /** The cursor stands where the unfinished line begins. */
  lemma CursorIsLineStart(file: seq<Byte>, delivered: nat, pending: seq<Byte>, pendingOffset: nat, cursor: nat)
    requires Buffered(file, delivered, pending, pendingOffset) && Exhausted(pending, cursor)
    requires pendingOffset + cursor == 0 || file[pendingOffset + cursor - 1] == LF
    ensures LineStart(file, delivered) == pendingOffset + cursor
  {
    forall j | pendingOffset + cursor <= j < delivered
      ensures file[j] != LF
    {
      assert file[j] == pending[j - pendingOffset];
    }
    LineStartIs(file, pendingOffset + cursor, delivered);
  }

  lemma Compacted(file: seq<Byte>, delivered: nat, pending: seq<Byte>, pendingOffset: nat, cursor: nat)
    requires Buffered(file, delivered, pending, pendingOffset) && Exhausted(pending, cursor)
    ensures Buffered(file, delivered, pending[cursor..], pendingOffset + cursor) && Exhausted(pending[cursor..], 0)
  {
    assert forall i :: 0 <= i < |pending[cursor..]| ==> pending[cursor..][i] == pending[cursor + i];
  }

  lemma ResidualIs(chunks: seq<seq<Byte>>, i: nat, pending: seq<Byte>, pendingOffset: nat, cursor: nat,
                   visited: seq<Record>, visit: Visitor)
    requires i < |chunks| && Buffered(Flatten(chunks), Delivered(chunks, i + 1), pending, pendingOffset)
    requires VisitedUpTo(Flatten(chunks), pendingOffset + cursor, visited, visit) && Exhausted(pending, cursor)
    ensures ResidualFits(chunks, i) <==> |pending| - cursor <= MAXIMUM_LINE_BYTES
  {
    CursorIsLineStart(Flatten(chunks), Delivered(chunks, i + 1), pending, pendingOffset, cursor);
  }

  /** The file is terminated exactly when the buffer is used up at its end. */
  lemma EndOfFile(file: seq<Byte>, pending: seq<Byte>, pendingOffset: nat, cursor: nat)
    requires Buffered(file, |file|, pending, pendingOffset) && Exhausted(pending, cursor)
    requires pendingOffset + cursor == 0 || file[pendingOffset + cursor - 1] == LF
    ensures Terminated(file) <==> cursor == |pending|
  {
    if cursor < |pending| {
      assert pending[|pending| - 1] != LF;
    }
  }

  lemma AllVisited(file: seq<Byte>, visited: seq<Record>, visit: Visitor)
    requires VisitedUpTo(file, |file|, visited, visit)
    ensures visited == Records(file) && AllFit(visit, Records(file))
  {
    assert visited + [] == visited;
  }

  lemma NothingRead(chunks: seq<seq<Byte>>, visit: Visitor)
    ensures Between(chunks, 0, [], [], 0, 0, [], visit)
  {
    assert [] + Records(Flatten(chunks)) == Records(Flatten(chunks));
  }

  lemma AllRead(chunks: seq<seq<Byte>>, hashed: seq<Byte>, pending: seq<Byte>, pendingOffset: nat, cursor: nat,
                visited: seq<Record>, visit: Visitor)
    requires Between(chunks, |chunks|, hashed, pending, pendingOffset, cursor, visited, visit)
    ensures hashed == Flatten(chunks) && ResidualsFit(chunks) && cursor <= |pending|
    ensures Terminated(hashed) <==> cursor == |pending|
    ensures cursor == |pending| ==> visited == Records(hashed) && AllFit(visit, visited)
  {
    assert chunks[..|chunks|] == chunks;
    ResidualsFitUpToMeans(chunks, |chunks|);
    EndOfFile(hashed, pending, pendingOffset, cursor);
    if cursor == |pending| {
      AllVisited(hashed, visited, visit);
    }
  }

  /** The checks after the loop decide the rest of what is asked. */
  lemma Decided(chunks: seq<seq<Byte>>, hashed: seq<Byte>, pending: seq<Byte>, pendingOffset: nat, cursor: nat,
                visited: seq<Record>,
                evidence: Evidence, visit: Visitor, hash: seq<Byte> -> Digest)
    requires Between(chunks, |chunks|, hashed, pending, pendingOffset, cursor, visited, visit)
    ensures Acceptable(chunks, evidence.byteCount, evidence, visit, hash) <==>
            (cursor == |pending| && |hashed| == evidence.byteCount && |visited| == evidence.recordCount
             && hash(hashed) == evidence.sha256)
    ensures cursor == |pending| ==>
      visited == Records(Flatten(chunks)) && AreConsecutive(Flatten(chunks), visited, 0)
    ensures cursor <= |pending|
  {
    AllRead(chunks, hashed, pending, pendingOffset, cursor, visited, visit);
    if cursor == |pending| {
      RecordsAreConsecutive(Flatten(chunks), 0);
    }
  }

  lemma TooLongDoesNotFit(chunks: seq<seq<Byte>>, i: nat)
    requires i < |chunks| && !ResidualFits(chunks, i)
    ensures !ResidualsFit(chunks)
  {
  }

  /** Takes in a chunk and visits its lines; what is left of it fits or not as the chunks decide. */
  method TakeChunk(chunks: seq<seq<Byte>>, i: nat, before: seq<Byte>, offset: nat, at: nat, seen: seq<Record>,
                   visit: Visitor)
    returns (r: Result<seq<Record>, ScanError>, pending: seq<Byte>, cursor: nat)
    requires i < |chunks| && Buffered(Flatten(chunks), Delivered(chunks, i), before, offset) && at <= |before|
    requires VisitedUpTo(Flatten(chunks), offset + at, seen, visit)
    ensures r.Ok? ==>
      && Buffered(Flatten(chunks), Delivered(chunks, i + 1), pending, offset)
      && VisitedUpTo(Flatten(chunks), offset + cursor, r.value, visit) && Exhausted(pending, cursor)
      && (ResidualFits(chunks, i) <==> |pending| - cursor <= MAXIMUM_LINE_BYTES)
    ensures r.Err? ==> !AllFit(visit, Records(Flatten(chunks)))
  {
    ReadNext(chunks, i, before, offset);
    pending := before + chunks[i];
    r, cursor := VisitLines(pending, offset, at, seen, visit, Flatten(chunks), Delivered(chunks, i + 1));
    if r.Ok? {
      ResidualIs(chunks, i, pending, offset, cursor, r.value, visit);
    }
  }

  lemma BetweenNext(chunks: seq<seq<Byte>>, i: nat, hashed: seq<Byte>, pending: seq<Byte>, pendingOffset: nat,
                    cursor: nat, visited: seq<Record>, visit: Visitor)
    requires i < |chunks| && hashed == Flatten(chunks[..i])
    requires Buffered(Flatten(chunks), Delivered(chunks, i + 1), pending, pendingOffset)
    requires VisitedUpTo(Flatten(chunks), pendingOffset + cursor, visited, visit) && Exhausted(pending, cursor)
    requires ResidualsFitUpTo(chunks, i) && ResidualFits(chunks, i)
    ensures Between(chunks, i + 1, hashed + chunks[i], pending, pendingOffset, cursor, visited, visit)
  {
    assert chunks[..i + 1] == chunks[..i] + [chunks[i]];
    FlattenSnoc(chunks[..i], chunks[i]);
    DeliveredPrefix(chunks, i + 1);
  }

  /** Drops the visited bytes once they fill four chunks. */
  method DropVisited(before: seq<Byte>, offset: nat, at: nat, ghost file: seq<Byte>, ghost delivered: nat)
    returns (pending: seq<Byte>, pendingOffset: nat, cursor: nat)
    requires Buffered(file, delivered, before, offset) && Exhausted(before, at)
    ensures Buffered(file, delivered, pending, pendingOffset) && Exhausted(pending, cursor)
    ensures pendingOffset + cursor == offset + at && cursor < 4 * CHUNK_BYTES && |pending| - cursor == |before| - at
  {
    pending, pendingOffset, cursor := before, offset, at;
    if cursor >= CHUNK_BYTES * 4 {
      Compacted(file, delivered, pending, offset, cursor);
      pending := pending[cursor..];
      pendingOffset := pendingOffset + cursor;
      cursor := 0;
    }
  }

  /**
    One turn of the loop: takes in a chunk, visits its lines, and drops the visited bytes once they fill
    four chunks.
   */
  method ReadChunk(chunks: seq<seq<Byte>>, i: nat, hashed: seq<Byte>, before: seq<Byte>, offset: nat, at: nat,
                   seen: seq<Record>, visit: Visitor)
    returns (r: Result<seq<Record>, ScanError>, pending: seq<Byte>, pendingOffset: nat, cursor: nat)
    requires i < |chunks| && Between(chunks, i, hashed, before, offset, at, seen, visit)
    ensures r.Ok? ==> Between(chunks, i + 1, hashed + chunks[i], pending, pendingOffset, cursor, r.value, visit)
    ensures r.Ok? ==> BufferIsBounded(pending, cursor)
    ensures r.Err? ==> !(ResidualsFit(chunks) && AllFit(visit, Records(Flatten(chunks))))
  {
    pendingOffset := offset;
    r, pending, cursor := TakeChunk(chunks, i, before, offset, at, seen, visit);
    if r.Err? {
      return;
    }
    pending, pendingOffset, cursor := DropVisited(pending, offset, cursor, Flatten(chunks), Delivered(chunks, i + 1));
    if |pending| - cursor > MAXIMUM_LINE_BYTES {
      TooLongDoesNotFit(chunks, i);
      r := Err(RecordTooLong);
    } else {
      BetweenNext(chunks, i, hashed, pending, pendingOffset, cursor, r.value, visit);
    }
  }

  /** Accepts exactly the acceptable files, and visits exactly their records. */
  method ScanNDJSON(chunks: seq<seq<Byte>>, size: nat, evidence: Evidence, visit: Visitor, hash: seq<Byte> -> Digest)
    returns (r: Result<seq<Record>, ScanError>)
    requires IsChunking(chunks, Flatten(chunks))
    ensures r.Ok? <==> Acceptable(chunks, size, evidence, visit, hash)
    ensures r.Ok? ==> r.value == Records(Flatten(chunks)) && AreConsecutive(Flatten(chunks), r.value, 0)
  {
    if size != evidence.byteCount {
      return Err(SizeMismatch);
    }
    var pending: seq<Byte>, visited: seq<Record>, hashed: seq<Byte> := [], [], [];
    var pendingOffset: nat, cursor: nat, byteCount: nat := 0, 0, 0;
    NothingRead(chunks, visit);
    for i := 0 to |chunks|
      invariant Between(chunks, i, hashed, pending, pendingOffset, cursor, visited, visit)
      invariant byteCount == |hashed| && BufferIsBounded(pending, cursor)
    {
      var lines;
      lines, pending, pendingOffset, cursor :=
        ReadChunk(chunks, i, hashed, pending, pendingOffset, cursor, visited, visit);
      if lines.Err? {
        return Err(lines.error);
      }
      hashed := hashed + chunks[i];
      byteCount := byteCount + |chunks[i]|;
      visited := lines.value;
    }
    Decided(chunks, hashed, pending, pendingOffset, cursor, visited, evidence, visit, hash);
    if cursor < |pending| {
      return Err(UnterminatedRecord);
    }
    if byteCount != evidence.byteCount || |visited| != evidence.recordCount || hash(hashed) != evidence.sha256 {
      return Err(EvidenceMismatch);
    }
    return Ok(visited);
  }
}
