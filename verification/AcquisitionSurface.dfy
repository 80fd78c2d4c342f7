/**
  Looking for markers in an application resource that is read in pieces
  (Sources/GreenBubblesCore/WeChatAcquisitionSurfaceInspector.swift,
  `scanResource` and the loop of `inspect`).
 */
module AcquisitionSurface {
  import opened Wrappers
  import opened Sequences
  import opened Volume
  import opened SourceFile
  import Snapshot

  const BUFFER: nat := 1024 * 1024
  const MAXIMUM_RESOURCE_BYTES: nat := 512 * 1024 * 1024

  // ----- occurrences -----

  /** The pattern stands at position `i` of the text. */
  predicate StandsAt(text: seq<Byte>, pattern: seq<Byte>, i: nat) {
    i + |pattern| <= |text| && forall k :: 0 <= k < |pattern| ==> text[i + k] == pattern[k]
  }

  /** An empty pattern is never found. */
  predicate Occurs(text: seq<Byte>, pattern: seq<Byte>) {
    pattern != [] && exists i :: 0 <= i < |text| && StandsAt(text, pattern, i)
  }

  /** Some stretch of the text is the pattern. */
  ghost predicate HasStretch(text: seq<Byte>, pattern: seq<Byte>) {
    exists before: seq<Byte>, after: seq<Byte> :: text == before + pattern + after
  }

  lemma StandsAsStretch(text: seq<Byte>, pattern: seq<Byte>, i: nat)
    requires StandsAt(text, pattern, i)
    ensures HasStretch(text, pattern)
  {
    assert text[i..i + |pattern|] == pattern;
    assert text == text[..i] + text[i..i + |pattern|] + text[i + |pattern|..];
  }

  lemma OccursMeans(text: seq<Byte>, pattern: seq<Byte>)
    ensures Occurs(text, pattern) <==> pattern != [] && HasStretch(text, pattern)
  {
    if pattern != [] {
      if before: seq<Byte>, after: seq<Byte> :| text == before + pattern + after {
        assert forall k :: 0 <= k < |pattern| ==> (before + pattern)[|before| + k] == pattern[k];
        assert StandsAt(text, pattern, |before|);
      }
      if i :| 0 <= i < |text| && StandsAt(text, pattern, i) {
        StandsAsStretch(text, pattern, i);
      }
    }
  }

  function LongestOf(patterns: seq<seq<Byte>>): (longest: nat)
    ensures forall p :: p in patterns ==> |p| <= longest
  {
    if patterns == [] then 0
    else
      var rest := LongestOf(patterns[1..]);
      assert patterns == [patterns[0]] + patterns[1..];
      if |patterns[0]| > rest then |patterns[0]| else rest
  }

  /** How many bytes are kept from one piece to the next. */
  function Kept(longest: nat, available: nat): nat {
    var wanted := if longest == 0 then 0 else longest - 1;
    if wanted < available then wanted else available
  }

  function Suffix(text: seq<Byte>, n: nat): seq<Byte>
    requires n <= |text|
  {
    text[|text| - n..]
  }

  /** The kept tail and the next piece together show every occurrence that ends in the piece. */
  lemma TailAndPiece(text: seq<Byte>, piece: seq<Byte>, pattern: seq<Byte>, longest: nat)
    requires |pattern| <= longest
    ensures Occurs(text + piece, pattern) <==>
            Occurs(text, pattern) || Occurs(Suffix(text, Kept(longest, |text|)) + piece, pattern)
  {
    var start := |text| - Kept(longest, |text|);
    var searchable, whole := text[start..] + piece, text + piece;
    assert forall k :: 0 <= k < |searchable| ==> searchable[k] == whole[start + k];
    if pattern != [] {
      if i :| 0 <= i < |whole| && StandsAt(whole, pattern, i) {
        if i + |pattern| <= |text| {
          assert StandsAt(text, pattern, i);
        } else {
          assert StandsAt(searchable, pattern, i - start);
        }
      }
      if i :| 0 <= i < |text| && StandsAt(text, pattern, i) {
        assert StandsAt(whole, pattern, i);
      }
      if i :| 0 <= i < |searchable| && StandsAt(searchable, pattern, i) {
        assert StandsAt(whole, pattern, start + i);
      }
    }
  }

  /** Cutting the tail from what was searched is cutting it from everything read. */
  lemma NextTail(text: seq<Byte>, piece: seq<Byte>, longest: nat)
    ensures var searchable := Suffix(text, Kept(longest, |text|)) + piece;
            Suffix(searchable, Kept(longest, |searchable|)) == Suffix(text + piece, Kept(longest, |text + piece|))
  {
    var searchable, whole := Suffix(text, Kept(longest, |text|)) + piece, text + piece;
    assert Kept(longest, |searchable|) == Kept(longest, |whole|);
    var start := |whole| - |searchable|;
    assert forall k :: 0 <= k < |searchable| ==> searchable[k] == whole[start + k];
  }

  // ----- scanning -----

  ghost predicate Matches(matches: seq<bool>, text: seq<Byte>, patterns: seq<seq<Byte>>) {
    |matches| == |patterns| && forall i :: 0 <= i < |patterns| ==> (matches[i] <==> Occurs(text, patterns[i]))
  }

  /** Looks for the patterns that were not found before. */
  method SearchPiece(matches: seq<bool>, tail: seq<Byte>, piece: seq<Byte>, patterns: seq<seq<Byte>>, longest: nat,
                     ghost text: seq<Byte>)
    returns (found: seq<bool>)
    requires Matches(matches, text, patterns) && tail == Suffix(text, Kept(longest, |text|))
    requires forall p :: p in patterns ==> |p| <= longest
    ensures Matches(found, text + piece, patterns)
  {
    var searchable := tail + piece;
    found := matches;
    for index := 0 to |patterns|
      invariant |found| == |patterns|
      invariant forall i :: 0 <= i < index ==> (found[i] <==> Occurs(text + piece, patterns[i]))
      invariant forall i :: index <= i < |patterns| ==> found[i] == matches[i]
    {
      TailAndPiece(text, piece, patterns[index], longest);
      if !found[index] {
        found := found[index := Occurs(searchable, patterns[index])];
      }
    }
  }

  datatype ResourceScan = ResourceScan(byteCount: nat, sha256: Digest, matches: seq<bool>)

  datatype InspectionError = PosixError(error: IOError) | UnsafeResource | ResourceTooLarge

  /** The read loop: hashes and searches piece by piece. */
  method SearchFile(machine: Machine, node: Inode, patterns: seq<seq<Byte>>)
    returns (r: Result<(seq<Byte>, seq<bool>), IOError>)
    modifies machine`now
    ensures old(machine.now) <= machine.now
    ensures r.Ok? ==> BeginsWith(machine.trace, old(machine.now), machine.now, node, 0, r.value.0)
    ensures r.Ok? ==> Matches(r.value.1, r.value.0, patterns)
    ensures r.Ok? ==> Delivers(machine.trace, old(machine.now), machine.now, node, r.value.0)
    ensures r.Err? ==> forall file :: !ReadsOn(machine.trace, old(machine.now), machine.now, node, file)
  {
    ghost var trace, start := machine.trace, machine.now;
    var longest := LongestOf(patterns);
    var matches := seq(|patterns|, _ => false);
    var hashed: seq<Byte>, tail: seq<Byte> := [], [];
    while true
      invariant start <= machine.now && BeginsWith(trace, start, machine.now, node, 0, hashed)
      invariant Matches(matches, hashed, patterns) && tail == Suffix(hashed, Kept(longest, |hashed|))
      decreases |trace| - machine.now
    {
      ghost var middle := machine.now;
      var part := machine.Read(node, |hashed|, BUFFER);
      if part.Err? {
        ReadsAtTheEnd(trace, start, machine.now, node);
        return Err(part.error);
      }
      if part.value == [] {
        EndIsReached(trace, start, middle, machine.now, node, hashed);
        ReadNothing(trace, start, middle, machine.now, node, hashed);
        return Ok((hashed, matches));
      }
      ghost var seen :| Holds(trace, machine.now, node, seen) && Slice(seen, |hashed|, part.value);
      NextPart(trace, start, middle, machine.now, machine.now, node, 0, hashed, part.value, seen);
      matches := SearchPiece(matches, tail, part.value, patterns, longest, hashed);
      NextTail(hashed, part.value, longest);
      var searchable := tail + part.value;
      tail := Suffix(searchable, Kept(longest, |searchable|));
      hashed := hashed + part.value;
    }
  }

  /** A read that delivers nothing shows that the file has been read to its end. */
  lemma EndIsReached(trace: Trace, a: nat, b: nat, c: nat, node: Inode, part: seq<Byte>)
    requires a <= b <= c && BeginsWith(trace, a, b, node, 0, part)
    requires exists file :: Holds(trace, c, node, file) && Slice(file, |part|, [])
    ensures Delivers(trace, a, c, node, part)
  {
    forall file | Snapshot.Constant(trace, a, c, node, file)
      ensures file.content == part
    {
      assert Holds(trace, c, node, file);
      assert Snapshot.Constant(trace, a, b, node, file);
    }
  }

  lemma ReadNothing(trace: Trace, a: nat, b: nat, c: nat, node: Inode, part: seq<Byte>)
    requires a <= b <= c && BeginsWith(trace, a, b, node, 0, part)
    ensures BeginsWith(trace, a, c, node, 0, part)
  {
    forall file | Snapshot.Constant(trace, a, c, node, file)
      ensures |part| <= |file.content| && forall i :: 0 <= i < |part| ==> part[i] == file.content[i]
    {
      assert Snapshot.Constant(trace, a, b, node, file);
    }
  }

  /** `path` was opened in (a, at], and what was opened was `file` at instant `at`. */
  ghost predicate LedTo(trace: Trace, a: nat, at: nat, path: Path, file: File) {
    exists node :: OpenedFrom(trace, a, at, path, node) && Holds(trace, at, node, file)
  }

  /** What is read from a file that stays the same is its content. */
  lemma SteadyDelivers(trace: Trace, a: nat, b: nat, c: nat, node: Inode, hashed: seq<Byte>, file: File)
    requires a < b <= c && Delivers(trace, b, c, node, hashed) && Holds(trace, b, node, file)
    requires |hashed| != |file.content|
    ensures forall other :: !ReadsOn(trace, a, c, node, other)
  {
    forall other | Steady(trace, a, c, node, other)
      ensures Snapshot.Constant(trace, b, c, node, other) && other == file
    {
      assert Holds(trace, b, node, other);
    }
  }

  lemma LooksDifferent(trace: Trace, a: nat, b: nat, c: nat, node: Inode, file: File)
    requires a < b < c && Holds(trace, b, node, file)
    requires Working(trace, c) ==>
      forall other :: Holds(trace, c, node, other) && other.regular ==> other.fingerprint != file.fingerprint
    ensures forall other :: !ReadsOn(trace, a, c, node, other)
  {
    assert forall other :: Steady(trace, a, c, node, other) ==>
      Holds(trace, b, node, other) && Holds(trace, c, node, other);
  }

  /**
    The report is about one content of the file that the name led to, and exact about it, however the
    reads split it. While nothing happens to the file, only its size can be a reason to refuse it.
   */
  method ScanResource(machine: Machine, path: Path, patterns: seq<seq<Byte>>, hash: seq<Byte> -> Digest)
    returns (r: Result<ResourceScan, InspectionError>, ghost at: nat, ghost file: File)
    requires Honest(machine.trace)
    modifies machine`now
    ensures r.Ok? ==> old(machine.now) < at <= machine.now && LedTo(machine.trace, old(machine.now), at, path, file)
    ensures r.Ok? ==>
      |file.content| == r.value.byteCount <= 512 * 1024 * 1024 && r.value.sha256 == hash(file.content)
    ensures r.Ok? ==> Matches(r.value.matches, file.content, patterns)
    ensures r == Err(ResourceTooLarge) ==>
      LedTo(machine.trace, old(machine.now), at, path, file) && |file.content| > 512 * 1024 * 1024
    ensures r.Err? && NameReadsOn(machine.trace, old(machine.now), machine.now, path) ==> r.error == ResourceTooLarge
  {
    at, file := 0, File(Fingerprint(0, 0, 0, 0, 0), [], true);
    ghost var start := machine.now;
    var descriptor := machine.Open(path);
    if descriptor.Err? {
      assert forall calm :: Calm(machine.trace, start, machine.now, path, calm) ==>
               Working(machine.trace, machine.now) && Shows(machine.trace, machine.now, path, calm);
      return Err(PosixError(descriptor.error)), at, file;
    }
    ghost var opening := machine.now;
    r, at, file := ScanOpened(machine, descriptor.value, patterns, hash);
    assert at > opening ==> OpenedFrom(machine.trace, start, at, path, descriptor.value);
    if r.Err? && NameReadsOn(machine.trace, start, machine.now, path) {
      NamedReadsOn(machine.trace, start, opening, machine.now, path, descriptor.value);
      ReadsOnWithin(machine.trace, start, opening, machine.now, machine.now, descriptor.value);
    }
  }

  method ScanOpened(machine: Machine, node: Inode, patterns: seq<seq<Byte>>, hash: seq<Byte> -> Digest)
    returns (r: Result<ResourceScan, InspectionError>, ghost at: nat, ghost file: File)
    requires Honest(machine.trace)
    modifies machine`now
    ensures old(machine.now) < machine.now
    ensures r.Ok? || r == Err(ResourceTooLarge) ==>
      old(machine.now) < at <= machine.now && Holds(machine.trace, at, node, file)
    ensures r.Ok? ==>
      |file.content| == r.value.byteCount <= MAXIMUM_RESOURCE_BYTES && r.value.sha256 == hash(file.content)
    ensures r.Ok? ==> Matches(r.value.matches, file.content, patterns)
    ensures r == Err(ResourceTooLarge) ==> |file.content| > MAXIMUM_RESOURCE_BYTES
    ensures r.Err? && r.error != ResourceTooLarge ==>
      forall other :: !ReadsOn(machine.trace, old(machine.now), machine.now, node, other)
  {
    at, file := 0, File(Fingerprint(0, 0, 0, 0, 0), [], true);
    ghost var start := machine.now;
    var before := machine.DescriptorStat(node);
    if before.Err? {
      ReadsAtTheEnd(machine.trace, start, machine.now, node);
      return Err(PosixError(before.error)), at, file;
    }
    at := machine.now;
    file :| Holds(machine.trace, at, node, file) && file.fingerprint == before.value && file.regular;
    assert Labelled(machine.trace[at]);
    if before.value.byteCount > MAXIMUM_RESOURCE_BYTES {
      return Err(ResourceTooLarge), at, file;
    }
    var searched := SearchFile(machine, node, patterns);
    if searched.Err? {
      ReadsOnWithin(machine.trace, start, at, machine.now, machine.now, node);
      return Err(PosixError(searched.error)), at, file;
    }
    var (hashed, matches) := searched.value;
    var total := |hashed|;
    if total != before.value.byteCount {
      SteadyDelivers(machine.trace, start, at, machine.now, node, hashed, file);
      return Err(UnsafeResource), at, file;
    }
    ghost var c := machine.now;
    var after := machine.DescriptorStat(node);
    if after.Err? || after.value != before.value {
      LooksDifferent(machine.trace, start, at, machine.now, node, file);
      return Err(UnsafeResource), at, file;
    }
    ghost var last :| Holds(machine.trace, machine.now, node, last) && last.fingerprint == after.value;
    StandsStill(machine.trace, at, at, c, machine.now, node, file, last);
    assert hashed == file.content;
    return Ok(ResourceScan(total, hash(hashed), matches)), at, file;
  }

  // ----- features -----

  datatype Feature = Feature(surface: string, markers: seq<seq<Byte>>)

  datatype Evidence = Evidence(surface: string, observed: bool, requiredMarkerCount: nat, observedMarkerCount: nat)

  function AllMarkers(features: seq<Feature>): seq<seq<Byte>> {
    if features == [] then [] else AllMarkers(features[..|features| - 1]) + features[|features| - 1].markers
  }

  function TrueCount(flags: seq<bool>): nat {
    if flags == [] then 0 else (if flags[0] then 1 else 0) + TrueCount(flags[1..])
  }

  lemma {:induction false} AllTrue(flags: seq<bool>)
    ensures TrueCount(flags) <= |flags|
    ensures TrueCount(flags) == |flags| <==> forall i :: 0 <= i < |flags| ==> flags[i]
  {
    if flags != [] {
      AllTrue(flags[1..]);
      assert forall i :: 0 < i < |flags| ==> flags[i] == flags[1..][i - 1];
      assert forall i :: 0 <= i < |flags[1..]| ==> flags[1..][i] == flags[i + 1];
    }
  }

  function OccurrenceFlags(content: seq<Byte>, markers: seq<seq<Byte>>): seq<bool> {
    seq(|markers|, i requires 0 <= i < |markers| => Occurs(content, markers[i]))
  }

  /** What is reported of one feature. */
  ghost predicate Reports(e: Evidence, content: seq<Byte>, feature: Feature) {
    && e.surface == feature.surface && e.requiredMarkerCount == |feature.markers|
    && e.observedMarkerCount == |set i | 0 <= i < |feature.markers| && Occurs(content, feature.markers[i])|
    && (e.observed <==> forall m :: m in feature.markers ==> Occurs(content, m))
  }

  lemma {:induction false} MarkersPrefix(features: seq<Feature>, n: nat)
    requires n < |features|
    ensures AllMarkers(features[..n + 1]) == AllMarkers(features[..n]) + features[n].markers
    ensures AllMarkers(features[..n + 1]) <= AllMarkers(features)
    decreases |features|
  {
    assert features[..n + 1][..n] == features[..n];
    if n + 1 < |features| {
      MarkersPrefix(features[..|features| - 1], n);
      assert features[..|features| - 1][..n + 1] == features[..n + 1];
      assert features[..|features| - 1][..n] == features[..n];
    } else {
      assert features[..n + 1] == features;
    }
  }

  /** The slice of the matches at a feature's place is about that feature's own markers. */
  lemma SliceIsFeature(content: seq<Byte>, matches: seq<bool>, features: seq<Feature>, n: nat)
    requires n < |features| && Matches(matches, content, AllMarkers(features))
    ensures var start := |AllMarkers(features[..n])|;
            start + |features[n].markers| <= |matches|
            && matches[start..start + |features[n].markers|] == OccurrenceFlags(content, features[n].markers)
  {
    MarkersPrefix(features, n);
    var start, markers := |AllMarkers(features[..n])|, features[n].markers;
    forall i | 0 <= i < |markers|
      ensures matches[start..start + |markers|][i] == OccurrenceFlags(content, markers)[i]
    {
      assert AllMarkers(features)[start + i] == AllMarkers(features[..n + 1])[start + i] == markers[i];
    }
  }

  lemma {:induction false} CountIsSize(flags: seq<bool>)
    ensures TrueCount(flags) == |set i | 0 <= i < |flags| && flags[i]|
    decreases |flags|
  {
    if flags != [] {
      var last := |flags| - 1;
      var front := flags[..last];
      CountIsSize(front);
      TrueCountSnoc(front, flags[last]);
      assert flags == front + [flags[last]];
      var before, all := set i | 0 <= i < |front| && front[i], set i | 0 <= i < |flags| && flags[i];
      assert all == before + if flags[last] then {last} else {};
    }
  }

  lemma {:induction false} TrueCountSnoc(flags: seq<bool>, flag: bool)
    ensures TrueCount(flags + [flag]) == TrueCount(flags) + if flag then 1 else 0
  {
    if flags != [] {
      TrueCountSnoc(flags[1..], flag);
      assert (flags + [flag])[1..] == flags[1..] + [flag];
    }
  }

  lemma CountedMeans(content: seq<Byte>, markers: seq<seq<Byte>>)
    ensures TrueCount(OccurrenceFlags(content, markers)) == |set i | 0 <= i < |markers| && Occurs(content, markers[i])|
  {
    var flags := OccurrenceFlags(content, markers);
    CountIsSize(flags);
    assert (set i | 0 <= i < |flags| && flags[i]) == set i | 0 <= i < |markers| && Occurs(content, markers[i]);
  }

  lemma ObservedMeans(content: seq<Byte>, markers: seq<seq<Byte>>)
    ensures TrueCount(OccurrenceFlags(content, markers)) == |markers|
       <==> forall m :: m in markers ==> Occurs(content, m)
  {
    var flags := OccurrenceFlags(content, markers);
    AllTrue(flags);
    if forall i :: 0 <= i < |flags| ==> flags[i] {
      forall m | m in markers
        ensures Occurs(content, m)
      {
        var i :| 0 <= i < |markers| && markers[i] == m;
        assert flags[i];
      }
    }
  }

  /** A feature is observed exactly when all of its own markers occur in the resource. */
  method Inspect(scan: ResourceScan, features: seq<Feature>, ghost content: seq<Byte>) returns (surfaces: seq<Evidence>)
    requires Matches(scan.matches, content, AllMarkers(features))
    ensures |surfaces| == |features| && forall i :: 0 <= i < |features| ==> Reports(surfaces[i], content, features[i])
  {
    var markerIndex := 0;
    surfaces := [];
    for n := 0 to |features|
      invariant markerIndex == |AllMarkers(features[..n])| && |surfaces| == n
      invariant forall i :: 0 <= i < n ==> Reports(surfaces[i], content, features[i])
    {
      var feature := features[n];
      SliceIsFeature(content, scan.matches, features, n);
      MarkersPrefix(features, n);
      ObservedMeans(content, feature.markers);
      CountedMeans(content, feature.markers);
      var observedMarkerCount := TrueCount(scan.matches[markerIndex..markerIndex + |feature.markers|]);
      markerIndex := markerIndex + |feature.markers|;
      var isObserved := observedMarkerCount == |feature.markers|;
      surfaces := surfaces + [Evidence(feature.surface, isObserved, |feature.markers|, observedMarkerCount)];
    }
  }
}
