/**
  Loading a history bundle, with its derived index built or reused
  (Sources/GreenBubblesHistory/HistoryBundleLoader.swift, `load`,
  `buildIndex`, `verifyMessagesWithoutReindexing` and `reusableIndex`).
 */
module HistoryLoader {
  import opened Wrappers
  import opened Sequences
  import opened Volume
  import opened LineScanner
  import opened HistoryTables
  import opened HistoryDatabase
  import opened HistoryRecords

  const INDEX_FORMAT := "3"

  datatype Metadata = Metadata(
    indexFormatVersion: string, bundleID: string, policySHA256: Digest, checkpointRevision: string,
    messagesSHA256: Digest, artifactsSHA256: Digest, messageCount: nat, artifactCount: nat)

  datatype Index = Index(tables: Tables, metadata: Metadata)

  datatype LoadError =
    | Stopped
    | ScanFailed(reason: ScanError)
    | CountsDisagree
    | ContactsDisagree
    | ErrorsDisagree
    | NotUnique
    | ReferencesBroken(detail: ReferenceError)

  function MetadataOf(m: Manifest): Metadata {
    Metadata(INDEX_FORMAT, m.bundleID, m.policySHA256, m.checkpointRevision,
             m.messages.sha256, m.artifacts.sha256, m.messages.recordCount, m.artifacts.recordCount)
  }

  // ----- the four visitors -----

  function ConversationVisitor(codec: Codec, rules: Rules): Visitor {
    Visiting(codec.conversation, (c: Conversation) => ValidConversation(c, rules), true, (c: Conversation) => true,
             (c: Conversation) => c.conversationID)
  }

  function ContactVisitor(codec: Codec, rules: Rules, conversationIDs: set<string>): Visitor {
    Visiting(codec.contact, (c: Contact) => ValidContact(c, conversationIDs, rules), true, (c: Contact) => true,
             (c: Contact) => c.participantID)
  }

  function MessageVisitor(codec: Codec, rules: Rules, conversationIDs: set<string>, contactIDs: set<string>,
                          inserting: bool): Visitor {
    Visiting(codec.message, (m: Message) => ValidMessage(m, conversationIDs, contactIDs, rules), inserting,
             (m: Message) => m.ordinal <= INT64_MAX, (m: Message) => m.canonicalID)
  }

  function ArtifactVisitor(codec: Codec, rules: Rules, conversationIDs: set<string>, inserting: bool): Visitor {
    Visiting(codec.artifact, (a: Artifact) => ValidArtifact(a, conversationIDs, rules), inserting,
             (a: Artifact) => true,
             (a: Artifact) => a.artifactID)
  }

  ghost predicate FileAccepted(chunks: seq<seq<Byte>>, evidence: Evidence, visit: Visitor, hash: Hash) {
    Acceptable(chunks, |Flatten(chunks)|, evidence, visit, hash)
  }

  function ErrorCount(artifacts: seq<Artifact>): nat {
    if artifacts == [] then 0
    else ErrorCount(artifacts[..|artifacts| - 1]) + if artifacts[|artifacts| - 1].failed then 1 else 0
  }

  // ----- what an index is made from -----

  /** The content decodes, and its rows can be stored. */
  ghost predicate MessagesStorable(content: seq<Byte>, codec: Codec) {
    AllDecode(Records(content), codec.message)
    && Storable(Values(Records(content), codec.message), (m: Message) => m.ordinal <= INT64_MAX,
                (m: Message) => m.canonicalID)
  }

  ghost predicate ArtifactsStorable(content: seq<Byte>, codec: Codec) {
    AllDecode(Records(content), codec.artifact)
    && Storable(Values(Records(content), codec.artifact), (a: Artifact) => true, (a: Artifact) => a.artifactID)
  }

  function MessagesIn(content: seq<Byte>, codec: Codec): seq<Message>
    requires AllDecode(Records(content), codec.message)
  {
    Values(Records(content), codec.message)
  }

  function ArtifactsIn(content: seq<Byte>, codec: Codec): seq<Artifact>
    requires AllDecode(Records(content), codec.artifact)
  {
    Values(Records(content), codec.artifact)
  }

  function TablesIn(messages: seq<Byte>, artifacts: seq<Byte>, codec: Codec): Tables
    requires AllDecode(Records(messages), codec.message) && AllDecode(Records(artifacts), codec.artifact)
  {
    TablesOf(Records(messages), MessagesIn(messages, codec), Records(artifacts), ArtifactsIn(artifacts, codec))
  }

  ghost predicate Closed(messages: seq<Byte>, artifacts: seq<Byte>, codec: Codec)
    requires AllDecode(Records(messages), codec.message) && AllDecode(Records(artifacts), codec.artifact)
  {
    ArtifactsClosed(MessagesIn(messages, codec), ArtifactsIn(artifacts, codec))
      && RelationshipsClosed(MessagesIn(messages, codec))
  }

  /** The index holds the rows of two contents with the recorded digests, and their reference graph is closed. */
  ghost predicate BuiltFrom(index: Index, messages: seq<Byte>, artifacts: seq<Byte>, codec: Codec, hash: Hash) {
    && index.metadata.messagesSHA256 == hash(messages) && index.metadata.artifactsSHA256 == hash(artifacts)
    && MessagesStorable(messages, codec) && ArtifactsStorable(artifacts, codec)
    && Closed(messages, artifacts, codec) && index.tables == TablesIn(messages, artifacts, codec)
  }

  /** Indexes of the current format were built; of another format anything may be stored. */
  ghost predicate Trusted(indexes: map<string, Index>, codec: Codec, hash: Hash) {
    forall id :: id in indexes && indexes[id].metadata.indexFormatVersion == INDEX_FORMAT ==>
      exists messages, artifacts :: BuiltFrom(indexes[id], messages, artifacts, codec, hash)
  }

  ghost predicate Injective(hash: Hash) {
    forall x, y :: hash(x) == hash(y) ==> x == y
  }

  // ----- what is asked of the messages and the artifacts -----

  /** What both paths ask of the two large files. */
  ghost predicate FilesVerified(b: Bundle, conversationIDs: set<string>, contactIDs: set<string>, codec: Codec,
                                rules: Rules, hash: Hash, inserting: bool) {
    && FileAccepted(b.messages, b.manifest.messages,
                    MessageVisitor(codec, rules, conversationIDs, contactIDs, inserting), hash)
    && FileAccepted(b.artifacts, b.manifest.artifacts, ArtifactVisitor(codec, rules, conversationIDs, inserting), hash)
    && AllDecode(Records(Flatten(b.artifacts)), codec.artifact)
    && ErrorCount(ArtifactsIn(Flatten(b.artifacts), codec)) == b.manifest.artifactResolutionErrorCount
  }

  /** What a rebuild asks. */
  ghost predicate Buildable(b: Bundle, conversationIDs: set<string>, contactIDs: set<string>, codec: Codec,
                            rules: Rules, hash: Hash) {
    && FilesVerified(b, conversationIDs, contactIDs, codec, rules, hash, true)
    && AllDecode(Records(Flatten(b.messages)), codec.message)
    && Closed(Flatten(b.messages), Flatten(b.artifacts), codec)
  }

  lemma MessagesAccepted(content: seq<Byte>, codec: Codec, rules: Rules, conversationIDs: set<string>,
                         contactIDs: set<string>, inserting: bool)
    ensures AllFit(MessageVisitor(codec, rules, conversationIDs, contactIDs, inserting), Records(content)) <==>
            Sound(Records(content), codec.message, (m: Message) => ValidMessage(m, conversationIDs, contactIDs, rules))
            && (inserting ==> MessagesStorable(content, codec))
  {
    VisitingMeans(codec.message, (m: Message) => ValidMessage(m, conversationIDs, contactIDs, rules), inserting,
                  (m: Message) => m.ordinal <= INT64_MAX, (m: Message) => m.canonicalID, Records(content));
  }

  lemma ArtifactsAccepted(content: seq<Byte>, codec: Codec, rules: Rules, conversationIDs: set<string>, inserting: bool)
    ensures AllFit(ArtifactVisitor(codec, rules, conversationIDs, inserting), Records(content)) <==>
            Sound(Records(content), codec.artifact, (a: Artifact) => ValidArtifact(a, conversationIDs, rules))
            && (inserting ==> ArtifactsStorable(content, codec))
  {
    VisitingMeans(codec.artifact, (a: Artifact) => ValidArtifact(a, conversationIDs, rules), inserting,
                  (a: Artifact) => true, (a: Artifact) => a.artifactID, Records(content));
  }

  lemma ReuseAcceptsSameMessages(b: Bundle, messages: seq<Byte>, conversationIDs: set<string>, contactIDs: set<string>,
                                 codec: Codec, rules: Rules, hash: Hash)
    requires Injective(hash) && b.manifest.messages.sha256 == hash(messages) && MessagesStorable(messages, codec)
    ensures FileAccepted(b.messages, b.manifest.messages,
                         MessageVisitor(codec, rules, conversationIDs, contactIDs, false), hash)
       <==> FileAccepted(b.messages, b.manifest.messages,
                         MessageVisitor(codec, rules, conversationIDs, contactIDs, true), hash)
    ensures FileAccepted(b.messages, b.manifest.messages,
                         MessageVisitor(codec, rules, conversationIDs, contactIDs, true), hash)
        ==> messages == Flatten(b.messages)
  {
    MessagesAccepted(Flatten(b.messages), codec, rules, conversationIDs, contactIDs, true);
    MessagesAccepted(Flatten(b.messages), codec, rules, conversationIDs, contactIDs, false);
    assert hash(Flatten(b.messages)) == hash(messages) ==> Flatten(b.messages) == messages;
  }

  lemma ReuseAcceptsSameArtifacts(b: Bundle, artifacts: seq<Byte>, conversationIDs: set<string>, codec: Codec,
                                  rules: Rules, hash: Hash)
    requires Injective(hash) && b.manifest.artifacts.sha256 == hash(artifacts) && ArtifactsStorable(artifacts, codec)
    ensures FileAccepted(b.artifacts, b.manifest.artifacts, ArtifactVisitor(codec, rules, conversationIDs, false), hash)
       <==> FileAccepted(b.artifacts, b.manifest.artifacts, ArtifactVisitor(codec, rules, conversationIDs, true), hash)
    ensures FileAccepted(b.artifacts, b.manifest.artifacts, ArtifactVisitor(codec, rules, conversationIDs, true), hash)
        ==> artifacts == Flatten(b.artifacts)
  {
    ArtifactsAccepted(Flatten(b.artifacts), codec, rules, conversationIDs, true);
    ArtifactsAccepted(Flatten(b.artifacts), codec, rules, conversationIDs, false);
    assert hash(Flatten(b.artifacts)) == hash(artifacts) ==> Flatten(b.artifacts) == artifacts;
  }

  /**
    A rebuild accepts exactly what a reuse accepts, once the contents are known
    to be those of an index that was built.
   */
  lemma ReuseAcceptsTheSame(b: Bundle, index: Index, messages: seq<Byte>, artifacts: seq<Byte>,
                            conversationIDs: set<string>, contactIDs: set<string>, codec: Codec, rules: Rules,
                             hash: Hash)
    requires Injective(hash) && BuiltFrom(index, messages, artifacts, codec, hash)
      && index.metadata == MetadataOf(b.manifest)
    ensures FilesVerified(b, conversationIDs, contactIDs, codec, rules, hash, false) <==>
            Buildable(b, conversationIDs, contactIDs, codec, rules, hash)
    ensures Buildable(b, conversationIDs, contactIDs, codec, rules, hash) ==>
            messages == Flatten(b.messages) && artifacts == Flatten(b.artifacts)
  {
    ReuseAcceptsSameMessages(b, messages, conversationIDs, contactIDs, codec, rules, hash);
    ReuseAcceptsSameArtifacts(b, artifacts, conversationIDs, codec, rules, hash);
  }

  // ----- building -----

  /** The tables of storable and sound contents meet what the queries presume. */
  lemma StoredShow(messages: seq<Byte>, artifacts: seq<Byte>, codec: Codec, rules: Rules, conversationIDs: set<string>)
    requires MessagesStorable(messages, codec) && ArtifactsStorable(artifacts, codec)
    requires Sound(Records(artifacts), codec.artifact, (a: Artifact) => ValidArtifact(a, conversationIDs, rules))
    ensures HistoryTables.Shows(TablesIn(messages, artifacts, codec), Records(messages), MessagesIn(messages, codec),
                                Records(artifacts), ArtifactsIn(artifacts, codec))
    ensures UniqueMessages(MessagesIn(messages, codec)) && UniqueArtifacts(ArtifactsIn(artifacts, codec))
    ensures EveryClaimMade(ArtifactsIn(artifacts, codec))
  {
    var mr, ms, ar, values :=
      Records(messages), MessagesIn(messages, codec), Records(artifacts), ArtifactsIn(artifacts, codec);
    TablesOfShow(mr, ms, ar, values);
    assert UniqueMessages(ms);
    assert UniqueArtifacts(values);
    assert EveryClaimMade(values) by {
      forall a | a in values
        ensures a.conversationIDs != []
      {
        var i :| 0 <= i < |values| && values[i] == a;
        assert codec.artifact(ar[i].data) == Some(a);
      }
    }
  }

  method InsertMessages(db: Database, records: seq<Record>, codec: Codec) returns (ok: bool)
    requires AllDecode(records, codec.message) && db.Contents() == EMPTY
    requires Storable(Values(records, codec.message), (m: Message) => m.ordinal <= INT64_MAX,
                      (m: Message) => m.canonicalID)
    modifies db
    ensures ok && db.Contents() == MessageTables(records, Values(records, codec.message))
  {
    ghost var values := Values(records, codec.message);
    for i := 0 to |records|
      invariant db.Contents() == MessageTables(records[..i], values[..i])
    {
      var m := codec.message(records[i].data).value;
      MessageTablesShow(records[..i], values[..i]);
      assert forall row :: row in db.messages ==> row.canonicalID != m.canonicalID;
      ok := db.InsertMessage(records[i], m);
      assert records[..i + 1][..i] == records[..i] && values[..i + 1][..i] == values[..i];
    }
    assert records[..|records|] == records && values[..|values|] == values;
    ok := true;
  }

  method InsertArtifacts(db: Database, records: seq<Record>, codec: Codec, ghost mr: seq<Record>,
                         ghost ms: seq<Message>)
    returns (ok: bool, errors: nat)
    requires |mr| == |ms| && AllDecode(records, codec.artifact) && db.Contents() == MessageTables(mr, ms)
    requires Storable(Values(records, codec.artifact), (a: Artifact) => true, (a: Artifact) => a.artifactID)
    requires forall i :: 0 <= i < |records| ==> Distinct(codec.artifact(records[i].data).value.conversationIDs)
    modifies db
    ensures ok && db.Contents() == TablesOf(mr, ms, records, Values(records, codec.artifact))
    ensures errors == ErrorCount(Values(records, codec.artifact))
  {
    ghost var values := Values(records, codec.artifact);
    errors := 0;
    for i := 0 to |records|
      invariant db.Contents() == TablesOf(mr, ms, records[..i], values[..i]) && errors == ErrorCount(values[..i])
    {
      var a := codec.artifact(records[i].data).value;
      NewArtifact(db.Contents(), mr, ms, records[..i], values[..i], a);
      ok := db.InsertArtifact(records[i], a);
      assert records[..i + 1][..i] == records[..i] && values[..i + 1][..i] == values[..i];
      errors := errors + if a.failed then 1 else 0;
    }
    assert records[..|records|] == records && values[..|values|] == values;
    ok := true;
  }

  /** Every claim in the tables is that of an artifact before it, and no row has the key of a new artifact. */
  lemma NewArtifact(t: Tables, mr: seq<Record>, ms: seq<Message>, ar: seq<Record>, artifacts: seq<Artifact>,
                    a: Artifact)
    requires |mr| == |ms| && |ar| == |artifacts| && t == TablesOf(mr, ms, ar, artifacts)
    requires forall i :: 0 <= i < |artifacts| ==> artifacts[i].artifactID != a.artifactID
    ensures forall claim :: claim in t.claims ==> exists row :: row in t.artifacts && row.artifactID == claim.artifactID
    ensures forall row :: row in t.artifacts ==> row.artifactID != a.artifactID
  {
    TablesOfShow(mr, ms, ar, artifacts);
    forall claim | claim in t.claims
      ensures exists row :: row in t.artifacts && row.artifactID == claim.artifactID
    {
      ArtifactHasRow(t, ar, artifacts, claim.artifactID);
    }
  }

  method ScanMessages(b: Bundle, conversationIDs: set<string>, contactIDs: set<string>, codec: Codec, rules: Rules,
                      hash: Hash, inserting: bool)
    returns (r: Result<seq<Record>, LoadError>)
    requires b.Valid()
    ensures r.Ok?
       <==> FileAccepted(b.messages, b.manifest.messages,
                         MessageVisitor(codec, rules, conversationIDs, contactIDs, inserting), hash)
    ensures r.Ok? ==> r.value == Records(Flatten(b.messages)) && AllDecode(r.value, codec.message)
    ensures r.Ok? && inserting ==> MessagesStorable(Flatten(b.messages), codec)
  {
    MessagesAccepted(Flatten(b.messages), codec, rules, conversationIDs, contactIDs, inserting);
    var scanned := ScanNDJSON(b.messages, |Flatten(b.messages)|, b.manifest.messages,
                                 MessageVisitor(codec, rules, conversationIDs, contactIDs, inserting), hash);
    return if scanned.Ok? then Ok(scanned.value) else Err(ScanFailed(scanned.error));
  }

  method ScanArtifacts(b: Bundle, conversationIDs: set<string>, codec: Codec, rules: Rules, hash: Hash, inserting: bool)
    returns (r: Result<seq<Record>, LoadError>)
    requires b.Valid()
    ensures r.Ok?
       <==> FileAccepted(b.artifacts, b.manifest.artifacts, ArtifactVisitor(codec, rules, conversationIDs, inserting),
                         hash)
    ensures r.Ok? ==> r.value == Records(Flatten(b.artifacts)) && AllDecode(r.value, codec.artifact)
    ensures r.Ok? ==> Sound(r.value, codec.artifact, (a: Artifact) => ValidArtifact(a, conversationIDs, rules))
    ensures r.Ok? && inserting ==> ArtifactsStorable(Flatten(b.artifacts), codec)
  {
    ArtifactsAccepted(Flatten(b.artifacts), codec, rules, conversationIDs, inserting);
    var scanned := ScanNDJSON(b.artifacts, |Flatten(b.artifacts)|, b.manifest.artifacts,
                                 ArtifactVisitor(codec, rules, conversationIDs, inserting), hash);
    return if scanned.Ok? then Ok(scanned.value) else Err(ScanFailed(scanned.error));
  }

  method CountErrors(records: seq<Record>, codec: Codec) returns (errorCount: nat)
    requires AllDecode(records, codec.artifact)
    ensures errorCount == ErrorCount(Values(records, codec.artifact))
  {
    errorCount := 0;
    ghost var values := Values(records, codec.artifact);
    for i := 0 to |records|
      invariant errorCount == ErrorCount(values[..i])
    {
      assert values[..i + 1][..i] == values[..i];
      if codec.artifact(records[i].data).value.failed {
        errorCount := errorCount + 1;
      }
    }
    assert values[..|values|] == values;
  }

  /** The graph of what was stored is closed, or one of the queries says why not. */
  method CheckReferences(db: Database, ghost messages: seq<Byte>, ghost artifacts: seq<Byte>, ghost codec: Codec,
                         ghost rules: Rules,
                         ghost conversationIDs: set<string>)
    returns (broken: Option<ReferenceError>)
    requires MessagesStorable(messages, codec) && ArtifactsStorable(artifacts, codec)
    requires Sound(Records(artifacts), codec.artifact, (a: Artifact) => ValidArtifact(a, conversationIDs, rules))
    requires db.Contents() == TablesIn(messages, artifacts, codec)
    ensures broken.None? <==> Closed(messages, artifacts, codec)
  {
    StoredShow(messages, artifacts, codec, rules, conversationIDs);
    broken := db.VerifyReferences(Records(messages), MessagesIn(messages, codec), Records(artifacts),
                                  ArtifactsIn(artifacts, codec));
  }

  /** Accepts exactly what can be built, and then holds its rows. */
  method BuildIndex(b: Bundle, conversationIDs: set<string>, contactIDs: set<string>, codec: Codec, rules: Rules,
                    hash: Hash)
    returns (r: Result<Index, LoadError>)
    requires b.Valid()
    ensures r.Ok? <==> Buildable(b, conversationIDs, contactIDs, codec, rules, hash)
    ensures r.Ok? ==>
      BuiltFrom(r.value, Flatten(b.messages), Flatten(b.artifacts), codec, hash)
        && r.value.metadata == MetadataOf(b.manifest)
  {
    var db := new Database();
    var messages := ScanMessages(b, conversationIDs, contactIDs, codec, rules, hash, true);
    if messages.Err? {
      return Err(messages.error);
    }
    var stored := InsertMessages(db, messages.value, codec);
    var artifacts := ScanArtifacts(b, conversationIDs, codec, rules, hash, true);
    if artifacts.Err? {
      return Err(artifacts.error);
    }
    var errors;
    stored, errors :=
      InsertArtifacts(db, artifacts.value, codec, messages.value, Values(messages.value, codec.message));
    if errors != b.manifest.artifactResolutionErrorCount {
      return Err(ErrorsDisagree);
    }
    var broken := CheckReferences(db, Flatten(b.messages), Flatten(b.artifacts), codec, rules, conversationIDs);
    if broken.Some? {
      return Err(ReferencesBroken(broken.value));
    }
    return Ok(Index(db.Contents(), MetadataOf(b.manifest)));
  }

  /** With a reused index the files are only checked. */
  method VerifyWithoutReindexing(b: Bundle, conversationIDs: set<string>, contactIDs: set<string>, codec: Codec,
                                 rules: Rules, hash: Hash)
    returns (r: Result<(), LoadError>)
    requires b.Valid()
    ensures r.Ok? <==> FilesVerified(b, conversationIDs, contactIDs, codec, rules, hash, false)
  {
    var messages := ScanMessages(b, conversationIDs, contactIDs, codec, rules, hash, false);
    if messages.Err? {
      return Err(messages.error);
    }
    var artifacts := ScanArtifacts(b, conversationIDs, codec, rules, hash, false);
    if artifacts.Err? {
      return Err(artifacts.error);
    }
    var errorCount := CountErrors(artifacts.value, codec);
    return if errorCount == b.manifest.artifactResolutionErrorCount then Ok(()) else Err(ErrorsDisagree);
  }

  // ----- conversations and contacts -----

  function ConversationIDs(conversations: seq<Conversation>): set<string> {
    set c | c in conversations :: c.conversationID
  }

  function Participants(conversations: seq<Conversation>): set<string> {
    set c, p | c in conversations && p in c.participants :: p
  }

  function ContactIDs(contacts: seq<Contact>): set<string> {
    set c | c in contacts :: c.participantID
  }

  ghost predicate ConversationsLoad(b: Bundle, codec: Codec, rules: Rules, hash: Hash) {
    && FileAccepted(b.conversations, b.manifest.conversations, ConversationVisitor(codec, rules), hash)
    && AllDecode(Records(Flatten(b.conversations)), codec.conversation)
    && |Records(Flatten(b.conversations))| == b.manifest.enabledConversationCount
  }

  function ConversationsIn(b: Bundle, codec: Codec): seq<Conversation>
    requires AllDecode(Records(Flatten(b.conversations)), codec.conversation)
  {
    Values(Records(Flatten(b.conversations)), codec.conversation)
  }

  ghost predicate ContactsLoad(b: Bundle, conversationIDs: set<string>, required: set<string>, codec: Codec,
                               rules: Rules, hash: Hash) {
    && FileAccepted(b.contacts, b.manifest.contacts, ContactVisitor(codec, rules, conversationIDs), hash)
    && AllDecode(Records(Flatten(b.contacts)), codec.contact)
    && |Records(Flatten(b.contacts))| == b.manifest.exportedContactCount
    && ContactIDs(Values(Records(Flatten(b.contacts)), codec.contact)) == required
  }

  method GatherConversations(records: seq<Record>, codec: Codec)
    returns (conversationIDs: set<string>, required: set<string>)
    requires AllDecode(records, codec.conversation)
    ensures conversationIDs == ConversationIDs(Values(records, codec.conversation))
    ensures required == Participants(Values(records, codec.conversation))
  {
    conversationIDs, required := {}, {};
    ghost var values := Values(records, codec.conversation);
    for i := 0 to |records|
      invariant conversationIDs == ConversationIDs(values[..i]) && required == Participants(values[..i])
    {
      var conversation := codec.conversation(records[i].data).value;
      NextConversation(values[..i], conversation);
      assert values[..i + 1] == values[..i] + [conversation];
      conversationIDs := conversationIDs + {conversation.conversationID};
      required := required + Members(conversation.participants);
    }
    assert values[..|values|] == values;
  }

  lemma NextConversation(before: seq<Conversation>, c: Conversation)
    ensures ConversationIDs(before + [c]) == ConversationIDs(before) + {c.conversationID}
    ensures Participants(before + [c]) == Participants(before) + Members(c.participants)
  {
    assert c in before + [c];
  }

  method GatherContacts(records: seq<Record>, codec: Codec) returns (contactIDs: set<string>)
    requires AllDecode(records, codec.contact)
    ensures contactIDs == ContactIDs(Values(records, codec.contact))
  {
    contactIDs := {};
    ghost var values := Values(records, codec.contact);
    for i := 0 to |records|
      invariant contactIDs == ContactIDs(values[..i])
    {
      var contact := codec.contact(records[i].data).value;
      assert values[..i + 1] == values[..i] + [contact];
      contactIDs := contactIDs + {contact.participantID};
    }
    assert values[..|values|] == values;
  }

  method LoadConversations(b: Bundle, codec: Codec, rules: Rules, hash: Hash)
    returns (r: Result<bool, LoadError>, conversationIDs: set<string>, required: set<string>)
    requires b.Valid()
    ensures r.Ok? <==> ConversationsLoad(b, codec, rules, hash)
    ensures r.Ok? ==>
      conversationIDs == ConversationIDs(ConversationsIn(b, codec))
        && required == Participants(ConversationsIn(b, codec))
  {
    VisitingMeans(codec.conversation, (c: Conversation) => ValidConversation(c, rules), true, (c: Conversation) => true,
                  (c: Conversation) => c.conversationID, Records(Flatten(b.conversations)));
    var scanned :=
      ScanNDJSON(b.conversations, |Flatten(b.conversations)|, b.manifest.conversations,
                 ConversationVisitor(codec, rules), hash);
    if scanned.Err? {
      return Err(ScanFailed(scanned.error)), {}, {};
    }
    conversationIDs, required := GatherConversations(scanned.value, codec);
    r := if |scanned.value| == b.manifest.enabledConversationCount then Ok(true) else Err(CountsDisagree);
  }

  method LoadContacts(b: Bundle, conversationIDs: set<string>, required: set<string>, codec: Codec, rules: Rules,
                      hash: Hash)
    returns (r: Result<bool, LoadError>)
    requires b.Valid()
    ensures r.Ok? <==> ContactsLoad(b, conversationIDs, required, codec, rules, hash)
  {
    VisitingMeans(codec.contact, (c: Contact) => ValidContact(c, conversationIDs, rules), true, (c: Contact) => true,
                  (c: Contact) => c.participantID, Records(Flatten(b.contacts)));
    var scanned :=
      ScanNDJSON(b.contacts, |Flatten(b.contacts)|, b.manifest.contacts, ContactVisitor(codec, rules, conversationIDs),
                 hash);
    if scanned.Err? {
      return Err(ScanFailed(scanned.error));
    }
    var contactIDs := GatherContacts(scanned.value, codec);
    if |scanned.value| != b.manifest.exportedContactCount {
      return Err(CountsDisagree);
    }
    return if contactIDs == required then Ok(true) else Err(ContactsDisagree);
  }

  // ----- loading -----

  /** What is asked of a bundle, whatever the index directory holds. */
  ghost predicate Loadable(b: Bundle, codec: Codec, rules: Rules, hash: Hash) {
    && ConversationsLoad(b, codec, rules, hash)
    && (var conversations := ConversationsIn(b, codec);
        && ContactsLoad(b, ConversationIDs(conversations), Participants(conversations), codec, rules, hash)
        && Buildable(b, ConversationIDs(conversations), Participants(conversations), codec, rules, hash))
    && b.manifest.messages.recordCount == b.manifest.exportedMessageCount
    && b.manifest.artifacts.recordCount == b.manifest.exportedArtifactCount
  }

  /** The index a rebuild of this bundle gives. */
  function IndexOf(b: Bundle, codec: Codec): Index
    requires AllDecode(Records(Flatten(b.messages)), codec.message)
      && AllDecode(Records(Flatten(b.artifacts)), codec.artifact)
  {
    Index(TablesIn(Flatten(b.messages), Flatten(b.artifacts), codec), MetadataOf(b.manifest))
  }

  // ----- what an accepted bundle guarantees -----

  lemma LoadableDecodes(b: Bundle, codec: Codec, rules: Rules, hash: Hash)
    requires Loadable(b, codec, rules, hash)
    ensures AllDecode(Records(Flatten(b.messages)), codec.message)
      && AllDecode(Records(Flatten(b.artifacts)), codec.artifact)
    ensures AllDecode(Records(Flatten(b.contacts)), codec.contact)
    ensures MessagesStorable(Flatten(b.messages), codec) && ArtifactsStorable(Flatten(b.artifacts), codec)
    ensures var ids, contactIDs := ConversationIDs(ConversationsIn(b, codec)), Participants(ConversationsIn(b, codec));
            Sound(Records(Flatten(b.messages)), codec.message, (m: Message) => ValidMessage(m, ids, contactIDs, rules))
            && Sound(Records(Flatten(b.artifacts)), codec.artifact, (a: Artifact) => ValidArtifact(a, ids, rules))
  {
    var ids, contactIDs := ConversationIDs(ConversationsIn(b, codec)), Participants(ConversationsIn(b, codec));
    MessagesAccepted(Flatten(b.messages), codec, rules, ids, contactIDs, true);
    ArtifactsAccepted(Flatten(b.artifacts), codec, rules, ids, true);
  }

  /** No record refers to anything that is not there, and nothing is there without a record that refers to it. */
  ghost predicate ClosedRecords(conversations: seq<Conversation>, contacts: seq<Contact>, ms: seq<Message>,
                                artifacts: seq<Artifact>) {
    && ContactIDs(contacts) == Participants(conversations)
    && (forall m :: m in ms ==> m.conversationID in ConversationIDs(conversations)
                                && (m.sender.Some? ==> m.sender.value in ContactIDs(contacts)))
    && UniqueMessages(ms) && UniqueArtifacts(artifacts) && ArtifactsClosed(ms, artifacts)
    && (forall m, r :: m in ms && r in m.references ==> MeetsArtifact(m, r, artifacts))
    && (forall m, r :: m in ms && r in m.relationships && r.target.Some? ==> Leads(ms, m, r.target.value))
  }

  predicate MeetsArtifact(m: Message, r: Reference, artifacts: seq<Artifact>) {
    exists a :: a in artifacts && a.artifactID == r.artifactID && m.conversationID in a.conversationIDs
  }

  ghost predicate ClosedBundle(b: Bundle, codec: Codec) {
    && AllDecode(Records(Flatten(b.conversations)), codec.conversation)
    && AllDecode(Records(Flatten(b.contacts)), codec.contact)
    && AllDecode(Records(Flatten(b.messages)), codec.message)
    && AllDecode(Records(Flatten(b.artifacts)), codec.artifact)
    && ClosedRecords(ConversationsIn(b, codec), Values(Records(Flatten(b.contacts)), codec.contact),
                     MessagesIn(Flatten(b.messages), codec), ArtifactsIn(Flatten(b.artifacts), codec))
  }

  lemma SoundAreClosed(conversations: seq<Conversation>, contacts: seq<Contact>, records: seq<Record>,
                       artifacts: seq<Artifact>,
                       codec: Codec, rules: Rules)
    requires ContactIDs(contacts) == Participants(conversations)
    requires Sound(records, codec.message,
                   (m: Message) => ValidMessage(m, ConversationIDs(conversations), Participants(conversations), rules))
    requires UniqueMessages(Values(records, codec.message)) && UniqueArtifacts(artifacts)
    requires ArtifactsClosed(Values(records, codec.message), artifacts)
      && RelationshipsClosed(Values(records, codec.message))
    ensures ClosedRecords(conversations, contacts, Values(records, codec.message), artifacts)
  {
    var ms := Values(records, codec.message);
    forall m | m in ms
      ensures ValidMessage(m, ConversationIDs(conversations), Participants(conversations), rules)
    {
      var i :| 0 <= i < |ms| && ms[i] == m;
      assert codec.message(records[i].data) == Some(m);
    }
    forall m, r | m in ms && r in m.references
      ensures MeetsArtifact(m, r, artifacts)
    {
      var a := ReferenceMeetsArtifact(ms, artifacts, m, r);
    }
  }

  /** An accepted bundle is closed. */
  lemma AcceptedIsClosed(b: Bundle, codec: Codec, rules: Rules, hash: Hash)
    ensures Loadable(b, codec, rules, hash) ==> ClosedBundle(b, codec)
  {
    if Loadable(b, codec, rules, hash) {
      LoadableDecodes(b, codec, rules, hash);
      SoundAreClosed(ConversationsIn(b, codec), Values(Records(Flatten(b.contacts)), codec.contact),
                     Records(Flatten(b.messages)),
                     ArtifactsIn(Flatten(b.artifacts), codec), codec, rules);
    }
  }

  /** A record's byte range decodes to the value that was validated. */
  lemma RangeDecodes<T(!new)>(file: seq<Byte>, decode: seq<Byte> -> Option<T>, valid: T -> bool, i: nat)
    requires Sound(Records(file), decode, valid) && i < |Records(file)|
    ensures var r := Records(file)[i];
            && 0 < r.length <= MAXIMUM_LINE_BYTES && r.offset + r.length <= |file|
            && decode(file[r.offset..r.offset + r.length]) == Some(Values(Records(file), decode)[i])
  {
    RecordsSliceTheFile(file, 0, Records(file)[i]);
  }

  lemma RowsFollowRecords(messages: seq<Byte>, artifacts: seq<Byte>, codec: Codec)
    requires AllDecode(Records(messages), codec.message) && AllDecode(Records(artifacts), codec.artifact)
    ensures MessageRowsShow(TablesIn(messages, artifacts, codec), Records(messages), MessagesIn(messages, codec))
    ensures ArtifactRowsShow(TablesIn(messages, artifacts, codec), Records(artifacts), ArtifactsIn(artifacts, codec))
  {
    TablesOfShow(Records(messages), MessagesIn(messages, codec), Records(artifacts), ArtifactsIn(artifacts, codec));
  }

  /** The row describes message `i` of the file, and its byte range holds that message. */
  ghost predicate RowHolds(row: MessageRow, file: seq<Byte>, codec: Codec, m: Message) {
    && 0 < row.length <= MAXIMUM_LINE_BYTES && row.offset + row.length <= |file|
    && codec.message(file[row.offset..row.offset + row.length]) == Some(m)
    && row.canonicalID == m.canonicalID && row.conversationID == m.conversationID && row.ordinal == m.ordinal
    && row.createdAt == m.createdAt
  }

  ghost predicate RowsHold(rows: seq<MessageRow>, file: seq<Byte>, codec: Codec, ms: seq<Message>) {
    |rows| == |ms| && forall i :: 0 <= i < |rows| ==> RowHolds(rows[i], file, codec, ms[i])
  }

  ghost predicate ArtifactRowHolds(row: ArtifactRow, file: seq<Byte>, codec: Codec, a: Artifact) {
    && 0 < row.length <= MAXIMUM_LINE_BYTES && row.offset + row.length <= |file|
    && codec.artifact(file[row.offset..row.offset + row.length]) == Some(a)
    && row.artifactID == a.artifactID && row.failed == a.failed
  }

  ghost predicate ArtifactRowsHold(rows: seq<ArtifactRow>, file: seq<Byte>, codec: Codec, artifacts: seq<Artifact>) {
    |rows| == |artifacts| && forall i :: 0 <= i < |rows| ==> ArtifactRowHolds(rows[i], file, codec, artifacts[i])
  }

  /** Row by row and in order, the index describes the records of the files, and nothing else. */
  ghost predicate AgreesWithFiles(b: Bundle, codec: Codec) {
    && AllDecode(Records(Flatten(b.messages)), codec.message)
    && AllDecode(Records(Flatten(b.artifacts)), codec.artifact)
    && RowsHold(IndexOf(b, codec).tables.messages, Flatten(b.messages), codec, MessagesIn(Flatten(b.messages), codec))
    && ArtifactRowsHold(IndexOf(b, codec).tables.artifacts, Flatten(b.artifacts), codec,
                        ArtifactsIn(Flatten(b.artifacts), codec))
  }

  /** The index of an accepted bundle agrees with its files. */
  lemma IndexAgrees(b: Bundle, codec: Codec, rules: Rules, hash: Hash)
    ensures Loadable(b, codec, rules, hash) ==> AgreesWithFiles(b, codec)
  {
    if Loadable(b, codec, rules, hash) {
      LoadableDecodes(b, codec, rules, hash);
      RowsFollowRecords(Flatten(b.messages), Flatten(b.artifacts), codec);
      var ids, contactIDs := ConversationIDs(ConversationsIn(b, codec)), Participants(ConversationsIn(b, codec));
      MessageRangesHold(Flatten(b.messages), IndexOf(b, codec).tables, codec,
                        (m: Message) => ValidMessage(m, ids, contactIDs, rules));
      ArtifactRangesHold(Flatten(b.artifacts), IndexOf(b, codec).tables, codec,
                         (a: Artifact) => ValidArtifact(a, ids, rules));
    }
  }

  lemma MessageRangesHold(file: seq<Byte>, t: Tables, codec: Codec, valid: Message -> bool)
    requires Sound(Records(file), codec.message, valid) && MessageRowsShow(t, Records(file), MessagesIn(file, codec))
    ensures RowsHold(t.messages, file, codec, MessagesIn(file, codec))
  {
    forall i | 0 <= i < |t.messages|
      ensures RowHolds(t.messages[i], file, codec, MessagesIn(file, codec)[i])
    {
      RangeDecodes(file, codec.message, valid, i);
    }
  }

  lemma ArtifactRangesHold(file: seq<Byte>, t: Tables, codec: Codec, valid: Artifact -> bool)
    requires Sound(Records(file), codec.artifact, valid) && ArtifactRowsShow(t, Records(file), ArtifactsIn(file, codec))
    ensures ArtifactRowsHold(t.artifacts, file, codec, ArtifactsIn(file, codec))
  {
    forall i | 0 <= i < |t.artifacts|
      ensures ArtifactRowHolds(t.artifacts[i], file, codec, ArtifactsIn(file, codec)[i])
    {
      RangeDecodes(file, codec.artifact, valid, i);
    }
  }

  class IndexDirectory {
    var indexes: map<string, Index>

    constructor ()
      ensures indexes == map[]
    {
      indexes := map[];
    }

    /** There is an index under the bundle's name, and all that it says of itself is what the manifest says. */
    ghost predicate HasIndexOf(manifest: Manifest)
      reads this
    {
      manifest.bundleID in indexes
      && var metadata := indexes[manifest.bundleID].metadata;
         && metadata.indexFormatVersion == "3" && metadata.bundleID == manifest.bundleID
         && metadata.policySHA256 == manifest.policySHA256 && metadata.checkpointRevision == manifest.checkpointRevision
         && metadata.messagesSHA256 == manifest.messages.sha256
         && metadata.messageCount == manifest.messages.recordCount
         && metadata.artifactsSHA256 == manifest.artifacts.sha256
         && metadata.artifactCount == manifest.artifacts.recordCount
    }

    /** `readable` is whether what is stored can be opened and passes the database's own check. */
    method Reusable(manifest: Manifest, readable: bool) returns (reusable: bool)
      ensures reusable <==> readable && HasIndexOf(manifest)
      ensures reusable ==> indexes[manifest.bundleID].metadata == MetadataOf(manifest)
    {
      if manifest.bundleID !in indexes {
        return false;
      }
      if !readable {
        return false;
      }
      var metadata := indexes[manifest.bundleID].metadata;
      return metadata.indexFormatVersion == INDEX_FORMAT
          && metadata.bundleID == manifest.bundleID
          && metadata.policySHA256 == manifest.policySHA256
          && metadata.checkpointRevision == manifest.checkpointRevision
          && metadata.messagesSHA256 == manifest.messages.sha256
          && metadata.artifactsSHA256 == manifest.artifacts.sha256
          && metadata.messageCount == manifest.messages.recordCount
          && metadata.artifactCount == manifest.artifacts.recordCount;
    }

    /**
      The index directory never shows: a bundle is accepted for what it is, and
      the index it is given is the one a rebuild makes. `stops` is whether a crash
      or a cancellation comes before a new index is published.
     */
    method Load(b: Bundle, codec: Codec, rules: Rules, hash: Hash, readable: bool, stops: bool)
      returns (r: Result<bool, LoadError>)
      requires b.Valid() && Injective(hash) && Trusted(indexes, codec, hash)
      modifies this
      ensures Trusted(indexes, codec, hash)
      ensures r.Ok? ==> Loadable(b, codec, rules, hash)
      ensures r.Ok? ==> b.manifest.bundleID in indexes && indexes[b.manifest.bundleID] == IndexOf(b, codec)
      ensures r.Ok? ==> (r.value <==> readable && old(HasIndexOf(b.manifest))) && (r.value ==> indexes == old(indexes))
      ensures r.Err? ==> (r.error == Stopped && stops) || !Loadable(b, codec, rules, hash)
      ensures indexes.Keys - {b.manifest.bundleID} == old(indexes).Keys - {b.manifest.bundleID}
      ensures forall id :: id in old(indexes) && id != b.manifest.bundleID ==>
        id in indexes && indexes[id] == old(indexes)[id]
    {
      var canReuse := Reusable(b.manifest, readable);
      var loaded, conversationIDs, required := LoadConversations(b, codec, rules, hash);
      if loaded.Err? {
        return loaded;
      }
      loaded := LoadContacts(b, conversationIDs, required, codec, rules, hash);
      if loaded.Err? {
        return loaded;
      }
      if canReuse {
        var verified := VerifyWithoutReindexing(b, conversationIDs, required, codec, rules, hash);
        ghost var index := indexes[b.manifest.bundleID];
        ghost var messages, artifacts :| BuiltFrom(index, messages, artifacts, codec, hash);
        ReuseAcceptsTheSame(b, index, messages, artifacts, conversationIDs, required, codec, rules, hash);
        if verified.Err? {
          return Err(verified.error);
        }
      } else {
        var built := BuildIndex(b, conversationIDs, required, codec, rules, hash);
        if built.Err? {
          return Err(built.error);
        }
        if stops {
          return Err(Stopped);
        }
        indexes := indexes[b.manifest.bundleID := built.value];
      }
      if b.manifest.messages.recordCount != b.manifest.exportedMessageCount
         || b.manifest.artifacts.recordCount != b.manifest.exportedArtifactCount {
        return Err(CountsDisagree);
      }
      return Ok(canReuse);
    }
  }
}
