/**
  A bundle from its files to what is shown of it (`HistoryStore.init` and the
  reading methods in Sources/GreenBubblesHistory/HistoryStore.swift, with the
  loading of Sources/GreenBubblesHistory/HistoryBundleLoader.swift).
 */
module OpenedStore {
  import opened Wrappers
  import opened Sequences
  import opened Volume
  import opened LineScanner
  import opened HistoryTables
  import opened HistoryRecords
  import opened HistoryStore
  import Files = SourceFile
  import Loader = HistoryLoader

  datatype Paths = Paths(conversations: Path, contacts: Path, messages: Path, artifacts: Path)

  /** The descriptors that are retained to read messages and artifacts back. */
  datatype ValidatedSources = ValidatedSources(messages: Files.Source, artifacts: Files.Source)

  /** Each file of the bundle was read whole by its name, the two that are retained by their descriptors. */
  ghost predicate ReadFrom(trace: Trace, a: nat, b: nat, paths: Paths, bundle: Bundle, sources: ValidatedSources) {
    && (exists source :: Files.ReadWhole(trace, a, b, paths.conversations, source, Flatten(bundle.conversations)))
    && (exists source :: Files.ReadWhole(trace, a, b, paths.contacts, source, Flatten(bundle.contacts)))
    && Files.ReadWhole(trace, a, b, paths.messages, sources.messages, Flatten(bundle.messages))
    && Files.ReadWhole(trace, a, b, paths.artifacts, sources.artifacts, Flatten(bundle.artifacts))
  }

  ghost predicate WasReadFrom(trace: Trace, a: nat, b: nat, paths: Paths, bundle: Bundle) {
    exists sources :: ReadFrom(trace, a, b, paths, bundle, sources)
  }

  /** What was read within a stretch of time was read within a longer one. */
  lemma ReadSometime(trace: Trace, a: nat, from: nat, to: nat, b: nat, path: Path, source: Files.Source,
                     content: seq<Byte>)
    requires a <= from && to <= b && Files.ReadWhole(trace, from, to, path, source, content)
    ensures Files.ReadWhole(trace, a, b, path, source, content)
  {
    var k :| from < k <= to && Names(trace, k, path, source.node);
    assert a < k <= b && Names(trace, k, path, source.node);
    var at: nat :| from < at <= to && Files.Retains(trace, at, source, content);
    assert a < at <= b && Files.Retains(trace, at, source, content);
  }

  /** Throughout (a, b] the four names lead to the same files, and these can be read. */
  ghost predicate PathsReadOn(trace: Trace, a: nat, b: nat, paths: Paths) {
    Files.NameReadsOn(trace, a, b, paths.conversations) && Files.NameReadsOn(trace, a, b, paths.contacts)
    && Files.NameReadsOn(trace, a, b, paths.messages) && Files.NameReadsOn(trace, a, b, paths.artifacts)
  }

  lemma NameReadsWithin(trace: Trace, a: nat, b: nat, c: nat, d: nat, path: Path)
    requires a <= b && c <= d && Files.NameReadsOn(trace, a, d, path)
    ensures Files.NameReadsOn(trace, b, c, path)
  {
    CalmWithin(trace, a, b, c, d, path);
  }

  lemma PathsReadWithin(trace: Trace, a: nat, b: nat, c: nat, d: nat, paths: Paths)
    requires a <= b && c <= d && PathsReadOn(trace, a, d, paths)
    ensures PathsReadOn(trace, b, c, paths)
  {
    NameReadsWithin(trace, a, b, c, d, paths.conversations);
    NameReadsWithin(trace, a, b, c, d, paths.contacts);
    NameReadsWithin(trace, a, b, c, d, paths.messages);
    NameReadsWithin(trace, a, b, c, d, paths.artifacts);
  }

  /** While its name leads to one file, the file that was validated under that name can be read back. */
  lemma StaysUnspoilt(trace: Trace, a: nat, b: nat, c: nat, path: Path, source: Files.Source, content: seq<Byte>)
    requires WellFormed(trace) && a <= b <= c && Files.ReadWhole(trace, a, b, path, source, content)
    requires Files.NameReadsOn(trace, a, c, path)
    ensures Unspoilt(trace, b, c, source)
  {
    var k :| a < k <= b && Names(trace, k, path, source.node);
    var at: nat :| a < at <= b && Files.Retains(trace, at, source, content);
    Files.NamedReadsOn(trace, a, k, c, path, source.node);
    var file :| Files.ReadsOn(trace, a, c, source.node, file);
    assert Holds(trace, at, source.node, file) && Files.ReadsOn(trace, b, c, source.node, file);
  }

  method ReadBundle(machine: Machine, manifest: Manifest, paths: Paths)
    returns (r: Result<(Bundle, ValidatedSources), Files.SourceError>)
    requires Honest(machine.trace)
    modifies machine`now
    ensures old(machine.now) < machine.now
    ensures r.Ok? ==> r.value.0.manifest == manifest && r.value.0.Valid()
    ensures r.Ok? ==> ReadFrom(machine.trace, old(machine.now), machine.now, paths, r.value.0, r.value.1)
    ensures r.Err? ==> !PathsReadOn(machine.trace, old(machine.now), machine.now, paths)
  {
    var conversations := Files.ReadRetained(machine, paths.conversations);
    ghost var t0 := machine.now;
    if conversations.Err? {
      return Err(conversations.error);
    }
    var contacts := Files.ReadRetained(machine, paths.contacts);
    ghost var t1 := machine.now;
    if contacts.Err? {
      if PathsReadOn(machine.trace, old(machine.now), machine.now, paths) {
        PathsReadWithin(machine.trace, old(machine.now), t0, machine.now, machine.now, paths);
      }
      return Err(contacts.error);
    }
    var messages := Files.ReadRetained(machine, paths.messages);
    ghost var t2 := machine.now;
    if messages.Err? {
      if PathsReadOn(machine.trace, old(machine.now), machine.now, paths) {
        PathsReadWithin(machine.trace, old(machine.now), t1, machine.now, machine.now, paths);
      }
      return Err(messages.error);
    }
    var artifacts := Files.ReadRetained(machine, paths.artifacts);
    if artifacts.Err? {
      if PathsReadOn(machine.trace, old(machine.now), machine.now, paths) {
        PathsReadWithin(machine.trace, old(machine.now), t2, machine.now, machine.now, paths);
      }
      return Err(artifacts.error);
    }
    ghost var trace, a, b := machine.trace, old(machine.now), machine.now;
    ReadSometime(trace, a, a, t0, b, paths.conversations, conversations.value.0, Flatten(conversations.value.1));
    ReadSometime(trace, a, t0, t1, b, paths.contacts, contacts.value.0, Flatten(contacts.value.1));
    ReadSometime(trace, a, t1, t2, b, paths.messages, messages.value.0, Flatten(messages.value.1));
    ReadSometime(trace, a, t2, b, b, paths.artifacts, artifacts.value.0, Flatten(artifacts.value.1));
    var bundle := Bundle(manifest, conversations.value.1, contacts.value.1, messages.value.1, artifacts.value.1);
    return Ok((bundle, ValidatedSources(messages.value.0, artifacts.value.0)));
  }

  /** The stored rows describe the messages and the artifacts of the bundle's files. */
  ghost predicate Describes(directory: Loader.IndexDirectory, b: Bundle, codec: Codec)
    reads directory
  {
    && b.manifest.bundleID in directory.indexes
    && AllDecode(Records(Flatten(b.messages)), codec.message)
    && AllDecode(Records(Flatten(b.artifacts)), codec.artifact)
    && var tables := directory.indexes[b.manifest.bundleID].tables;
       && Loader.RowsHold(tables.messages, Flatten(b.messages), codec, Loader.MessagesIn(Flatten(b.messages), codec))
       && Loader.ArtifactRowsHold(tables.artifacts, Flatten(b.artifacts), codec,
                                  Loader.ArtifactsIn(Flatten(b.artifacts), codec))
  }

  /** Reads, validates and indexes the bundle; the index may have been there before. */
  method OpenStore(machine: Machine, directory: Loader.IndexDirectory, manifest: Manifest, paths: Paths, codec: Codec,
                   rules: Rules, hash: Hash, readable: bool, stops: bool)
    returns (r: Result<ValidatedSources, StoreError>, ghost b: Bundle)
    requires Honest(machine.trace) && Loader.Injective(hash) && Loader.Trusted(directory.indexes, codec, hash)
    modifies machine`now, directory
    ensures old(machine.now) < machine.now && Loader.Trusted(directory.indexes, codec, hash)
    ensures r.Ok? ==> b.manifest == manifest && Loader.Loadable(b, codec, rules, hash)
    ensures r.Ok? ==> ReadFrom(machine.trace, old(machine.now), machine.now, paths, b, r.value)
    ensures r.Ok? ==>
      manifest.bundleID in directory.indexes && directory.indexes[manifest.bundleID] == Loader.IndexOf(b, codec)
    ensures r.Ok? ==> Describes(directory, b, codec)
    ensures r.Err? && !stops && PathsReadOn(machine.trace, old(machine.now), machine.now, paths) ==>
      b.manifest == manifest && WasReadFrom(machine.trace, old(machine.now), machine.now, paths, b)
      && !Loader.Loadable(b, codec, rules, hash)
  {
    var bundle := ReadBundle(machine, manifest, paths);
    b := Bundle(manifest, [], [], [], []);
    if bundle.Err? {
      return Err(Unopened(bundle.error)), b;
    }
    b := bundle.value.0;
    var loaded := directory.Load(bundle.value.0, codec, rules, hash, readable, stops);
    if loaded.Err? {
      return Err(Unloadable(loaded.error)), b;
    }
    Loader.IndexAgrees(b, codec, rules, hash);
    return Ok(bundle.value.1), b;
  }

  // ----- a conversation -----

  /** What the messages of a file show of a conversation. */
  ghost predicate ShowsConversation(messages: seq<Byte>, codec: Codec, conversationID: string, values: seq<Message>) {
    AllDecode(Records(messages), codec.message)
    && exists places :: ShownInOrder(values, places, Loader.MessagesIn(messages, codec), conversationID)
  }

  lemma AllAreDecodable(trace: Trace, at: nat, upTo: nat, source: Files.Source, codec: Codec, rows: seq<MessageRow>,
                        conversationID: string, records: seq<IndexedRecord>, messages: seq<Byte>)
    requires WellFormed(trace) && at <= upTo && Files.Retains(trace, at, source, messages) && |messages| <= INT64_MAX
    requires AllDecode(Records(messages), codec.message)
      && Loader.RowsHold(rows, messages, codec, Loader.MessagesIn(messages, codec))
    requires records == HistoryStore.Conversation(rows, conversationID)
    ensures forall x :: x in records ==> Decodable(trace, upTo, source, codec, x)
  {
    ConversationMeans(rows, conversationID);
    assert Labelled(trace[at]);
    forall x | x in records
      ensures Decodable(trace, upTo, source, codec, x)
    {
      var p := x.cursor.rowID - 1;
      assert Loader.RowHolds(rows[p], messages, codec, Loader.MessagesIn(messages, codec)[p]);
    }
  }

  /**
    Follows the pages of the conversation through the index, and reads its messages back from the
    retained descriptor.
   */
  method ReadConversation(machine: Machine, source: Files.Source, codec: Codec, rows: seq<MessageRow>,
                          conversationID: string,
                          ghost start: nat, ghost messages: seq<Byte>)
    returns (r: Result<seq<Message>, StoreError>)
    requires Honest(machine.trace) && Files.RetainedIn(machine.trace, start, machine.now, source, messages)
    requires AllDecode(Records(messages), codec.message)
      && Loader.RowsHold(rows, messages, codec, Loader.MessagesIn(messages, codec))
    modifies machine`now
    ensures old(machine.now) <= machine.now
    ensures r.Ok? ==> ShowsConversation(messages, codec, conversationID, r.value)
    ensures r.Err? && |messages| <= INT64_MAX ==> !Unspoilt(machine.trace, old(machine.now), machine.now, source)
  {
    ghost var at: nat :| at <= machine.now && Files.Retains(machine.trace, at, source, messages);
    var records := FollowPages(rows, conversationID);
    ghost var before := machine.now;
    if |messages| <= INT64_MAX {
      AllAreDecodable(machine.trace, at, before, source, codec, rows, conversationID, records, messages);
    }
    r := DecodeMessages(machine, source, codec, records);
    if r.Ok? {
      var places :=
        ConversationIsShown(rows, Loader.MessagesIn(messages, codec), messages, codec, conversationID, records,
                            r.value);
    }
  }

  lemma ReadLonger(trace: Trace, a: nat, b: nat, c: nat, paths: Paths, bundle: Bundle, sources: ValidatedSources)
    requires b <= c && ReadFrom(trace, a, b, paths, bundle, sources)
    ensures WasReadFrom(trace, a, c, paths, bundle)
  {
    var conversations :|
      Files.ReadWhole(trace, a, b, paths.conversations, conversations, Flatten(bundle.conversations));
    var contacts :| Files.ReadWhole(trace, a, b, paths.contacts, contacts, Flatten(bundle.contacts));
    ReadSometime(trace, a, a, b, c, paths.conversations, conversations, Flatten(bundle.conversations));
    ReadSometime(trace, a, a, b, c, paths.contacts, contacts, Flatten(bundle.contacts));
    ReadSometime(trace, a, a, b, c, paths.messages, sources.messages, Flatten(bundle.messages));
    ReadSometime(trace, a, a, b, c, paths.artifacts, sources.artifacts, Flatten(bundle.artifacts));
    assert ReadFrom(trace, a, c, paths, bundle, sources);
  }

  /** What was read until `b` was read until later, and while the names lead to the same files it can be read back. */
  lemma ReadMeanwhile(trace: Trace, a: nat, b: nat, c: nat, paths: Paths, bundle: Bundle, sources: ValidatedSources)
    requires WellFormed(trace) && a <= b <= c && ReadFrom(trace, a, b, paths, bundle, sources)
    ensures WasReadFrom(trace, a, c, paths, bundle)
    ensures PathsReadOn(trace, a, c, paths) ==>
      Unspoilt(trace, b, c, sources.messages) && Unspoilt(trace, b, c, sources.artifacts)
  {
    ReadLonger(trace, a, b, c, paths, bundle, sources);
    if PathsReadOn(trace, a, c, paths) {
      StaysUnspoilt(trace, a, b, c, paths.messages, sources.messages, Flatten(bundle.messages));
      StaysUnspoilt(trace, a, b, c, paths.artifacts, sources.artifacts, Flatten(bundle.artifacts));
    }
  }

  /**
    From end to end: the files are opened by name, the bundle is loaded, and a
    conversation is read through the index. Whatever was written meanwhile and
    whatever the index directory held, the values shown are the conversation's
    messages in a bundle that was accepted and that these files held. While
    nothing happens to the files, it fails only on a bundle that is not accepted.
   */
  method ShowConversation(machine: Machine, directory: Loader.IndexDirectory, manifest: Manifest, paths: Paths,
                          codec: Codec, rules: Rules, hash: Hash, readable: bool, stops: bool, conversationID: string)
    returns (r: Result<seq<Message>, StoreError>, ghost b: Bundle)
    requires Honest(machine.trace) && Loader.Injective(hash) && Loader.Trusted(directory.indexes, codec, hash)
    modifies machine`now, directory
    ensures Loader.Trusted(directory.indexes, codec, hash)
    ensures r.Ok? ==> b.manifest == manifest && Loader.Loadable(b, codec, rules, hash)
    ensures r.Ok? ==> WasReadFrom(machine.trace, old(machine.now), machine.now, paths, b)
    ensures r.Ok? ==> ShowsConversation(Flatten(b.messages), codec, conversationID, r.value)
    ensures r.Err? && !stops && PathsReadOn(machine.trace, old(machine.now), machine.now, paths) ==>
      b.manifest == manifest && WasReadFrom(machine.trace, old(machine.now), machine.now, paths, b)
      && (Loader.Loadable(b, codec, rules, hash) ==> |Flatten(b.messages)| > INT64_MAX)
  {
    ghost var start := machine.now;
    var store;
    store, b := OpenStore(machine, directory, manifest, paths, codec, rules, hash, readable, stops);
    if store.Err? {
      return Err(store.error), b;
    }
    ghost var upTo := machine.now;
    r := ReadConversation(machine, store.value.messages, codec, directory.indexes[manifest.bundleID].tables.messages,
                          conversationID,
                          start, Flatten(b.messages));
    ReadMeanwhile(machine.trace, start, upTo, machine.now, paths, b, store.value);
  }

  // ----- an artifact -----

  /** The artifact of the file with this identity, or nothing when there is none. */
  ghost predicate ShowsArtifact(artifacts: seq<Byte>, codec: Codec, artifactID: string, shown: Option<Artifact>) {
    && AllDecode(Records(artifacts), codec.artifact)
    && match shown
       case Some(artifact) => artifact in Loader.ArtifactsIn(artifacts, codec) && artifact.artifactID == artifactID
       case None => forall artifact :: artifact in Loader.ArtifactsIn(artifacts, codec) ==>
         artifact.artifactID != artifactID
  }

  /** The place of the row with this identity. */
  function ArtifactAt(rows: seq<ArtifactRow>, artifactID: string): (r: Option<nat>)
    ensures r.Some? ==> r.value < |rows| && rows[r.value].artifactID == artifactID
    ensures r.None? ==> forall row :: row in rows ==> row.artifactID != artifactID
  {
    if rows == [] then None
    else if rows[0].artifactID == artifactID then Some(0)
    else match ArtifactAt(rows[1..], artifactID) case Some(i) => Some(i + 1) case None => None
  }

  /** Looks the artifact up in the index and reads it back from the retained descriptor. */
  method ReadArtifact(machine: Machine, source: Files.Source, codec: Codec, rows: seq<ArtifactRow>, artifactID: string,
                      ghost start: nat, ghost artifacts: seq<Byte>)
    returns (r: Result<Option<Artifact>, StoreError>)
    requires Honest(machine.trace) && Files.RetainedIn(machine.trace, start, machine.now, source, artifacts)
    requires AllDecode(Records(artifacts), codec.artifact)
    requires Loader.ArtifactRowsHold(rows, artifacts, codec, Loader.ArtifactsIn(artifacts, codec))
    modifies machine`now
    ensures old(machine.now) <= machine.now
    ensures r.Ok? ==> ShowsArtifact(artifacts, codec, artifactID, r.value)
    ensures r.Err? && |artifacts| <= INT64_MAX ==> !Unspoilt(machine.trace, old(machine.now), machine.now, source)
  {
    ghost var at: nat :| at <= machine.now && Files.Retains(machine.trace, at, source, artifacts);
    var place := ArtifactAt(rows, artifactID);
    if place.None? {
      NoSuchArtifact(rows, artifacts, codec, artifactID);
      return Ok(None);
    }
    var row := rows[place.value];
    assert Loader.ArtifactRowHolds(row, artifacts, codec, Loader.ArtifactsIn(artifacts, codec)[place.value]);
    assert Labelled(machine.trace[at]);
    var data := Files.ReadRange(machine, source, row.offset, row.length);
    if data.Err? {
      return Err(Unreadable(data.error));
    }
    var artifact := codec.artifact(data.value);
    return if artifact.None? then Err(Undecodable) else Ok(artifact);
  }

  lemma NoSuchArtifact(rows: seq<ArtifactRow>, file: seq<Byte>, codec: Codec, artifactID: string)
    requires AllDecode(Records(file), codec.artifact)
      && Loader.ArtifactRowsHold(rows, file, codec, Loader.ArtifactsIn(file, codec))
    requires forall row :: row in rows ==> row.artifactID != artifactID
    ensures forall a :: a in Loader.ArtifactsIn(file, codec) ==> a.artifactID != artifactID
  {
    var all := Loader.ArtifactsIn(file, codec);
    forall i | 0 <= i < |all|
      ensures all[i].artifactID != artifactID
    {
      assert Loader.ArtifactRowHolds(rows[i], file, codec, all[i]) && rows[i] in rows;
    }
  }

  /** The same for the artifact with this identity. */
  method ShowArtifact(machine: Machine, directory: Loader.IndexDirectory, manifest: Manifest, paths: Paths,
                      codec: Codec, rules: Rules, hash: Hash, readable: bool, stops: bool, artifactID: string)
    returns (r: Result<Option<Artifact>, StoreError>, ghost b: Bundle)
    requires Honest(machine.trace) && Loader.Injective(hash) && Loader.Trusted(directory.indexes, codec, hash)
    modifies machine`now, directory
    ensures Loader.Trusted(directory.indexes, codec, hash)
    ensures r.Ok? ==> b.manifest == manifest && Loader.Loadable(b, codec, rules, hash)
    ensures r.Ok? ==> WasReadFrom(machine.trace, old(machine.now), machine.now, paths, b)
    ensures r.Ok? ==> ShowsArtifact(Flatten(b.artifacts), codec, artifactID, r.value)
    ensures r.Err? && !stops && PathsReadOn(machine.trace, old(machine.now), machine.now, paths) ==>
      b.manifest == manifest && WasReadFrom(machine.trace, old(machine.now), machine.now, paths, b)
      && (Loader.Loadable(b, codec, rules, hash) ==> |Flatten(b.artifacts)| > INT64_MAX)
  {
    ghost var start := machine.now;
    var store;
    store, b := OpenStore(machine, directory, manifest, paths, codec, rules, hash, readable, stops);
    if store.Err? {
      return Err(store.error), b;
    }
    ghost var upTo := machine.now;
    r := ReadArtifact(machine, store.value.artifacts, codec, directory.indexes[manifest.bundleID].tables.artifacts,
                      artifactID,
                      start, Flatten(b.artifacts));
    ReadMeanwhile(machine.trace, start, upTo, machine.now, paths, b, store.value);
  }
}
