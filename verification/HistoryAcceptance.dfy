/**
  Which bundles are accepted, told from their records alone
  (Sources/GreenBubblesHistory/HistoryBundleLoader.swift, the `validate`
  functions and `loadSynchronously`): what `HistoryLoader` asks of a bundle
  file by file and table by table comes to this.
 */
module HistoryAcceptance {
  import opened Wrappers
  import opened Sequences
  import opened LineScanner
  import opened HistoryTables
  import opened HistoryRecords
  import opened HistoryLoader
  import opened Volume

  // ----- one record -----

  ghost predicate NoRepeats<T(!new)>(s: seq<T>) {
    forall i, j :: 0 <= i < j < |s| ==> s[i] != s[j]
  }

  ghost predicate IsConversation(cs: seq<Conversation>, id: string) {
    exists c :: c in cs && c.conversationID == id
  }

  ghost predicate TakesPart(cs: seq<Conversation>, participant: string) {
    exists c :: c in cs && participant in c.participants
  }

  ghost predicate RightConversation(c: Conversation, rules: Rules) {
    c.conversationID != "" && NoRepeats(c.participants) && (forall p :: p in c.participants ==> p != "")
    && rules.conversation(c)
  }

  ghost predicate RightContact(c: Contact, cs: seq<Conversation>, rules: Rules) {
    c.participantID != "" && NoRepeats(c.conversationIDs)
    && (forall id :: id in c.conversationIDs ==> IsConversation(cs, id)) && rules.contact(c)
  }

  ghost function Preferred(r: Reference): nat {
    if r.preferred then 1 else 0
  }

  /** No artifact twice in one role, and if there are any references then one of them is preferred. */
  ghost predicate RightReferences(references: seq<Reference>) {
    && (forall r :: r in references ==> r.artifactID != "" && r.role != "")
    && (forall i, j :: 0 <= i < j < |references| ==>
          references[i].artifactID + ['\0'] + references[i].role
          != references[j].artifactID + ['\0'] + references[j].role)
    && (references != [] ==> SumBy(references, Preferred) == 1)
  }

  ghost predicate RightMessage(m: Message, cs: seq<Conversation>, rules: Rules) {
    && m.canonicalID != "" && IsConversation(cs, m.conversationID)
    && (m.sender.Some? ==> TakesPart(cs, m.sender.value)) && RightReferences(m.references)
    && (forall r :: r in m.relationships ==> r.kind != "" && (r.resolved <==> r.target.Some?)) && rules.message(m)
  }

  ghost predicate RightArtifact(a: Artifact, cs: seq<Conversation>, rules: Rules) {
    a.artifactID != "" && a.conversationIDs != [] && NoRepeats(a.conversationIDs)
    && (forall id :: id in a.conversationIDs ==> IsConversation(cs, id)) && rules.artifact(a)
  }

  // ----- the checks of the loader say the same -----

  lemma {:induction false} NonePreferred(references: seq<Reference>)
    ensures SumBy(references, Preferred) == 0 <==> forall r :: r in references ==> !r.preferred
  {
    if references != [] {
      NonePreferred(references[1..]);
      assert references == [references[0]] + references[1..];
      assert references[0] in references;
    }
  }

  lemma {:induction false} OnePreferred(references: seq<Reference>)
    ensures SumBy(references, Preferred) == 1
       <==> exists i :: 0 <= i < |references| && references[i].preferred
              && forall j :: 0 <= j < |references| && references[j].preferred ==> j == i
  {
    if references != [] {
      var rest := references[1..];
      OnePreferred(rest);
      NonePreferred(rest);
      if references[0].preferred {
        FirstIsOnly(references);
      } else {
        OnlyIsLater(references);
      }
    }
  }

  ghost predicate IsOnly(references: seq<Reference>, i: nat) {
    i < |references| && references[i].preferred
    && forall j :: 0 <= j < |references| && references[j].preferred ==> j == i
  }

  lemma FirstIsOnly(references: seq<Reference>)
    requires references != [] && references[0].preferred
    ensures (exists i: nat :: IsOnly(references, i)) <==> forall r :: r in references[1..] ==> !r.preferred
  {
    if i: nat :| IsOnly(references, i) {
      forall r | r in references[1..]
        ensures !r.preferred
      {
        var k :| 0 <= k < |references[1..]| && references[1..][k] == r;
        assert references[k + 1] == r;
      }
    }
    if forall r :: r in references[1..] ==> !r.preferred {
      forall j | 0 < j < |references|
        ensures !references[j].preferred
      {
        assert references[1..][j - 1] == references[j] && references[j] in references[1..];
      }
      assert IsOnly(references, 0);
    }
  }

  lemma OnlyIsLater(references: seq<Reference>)
    requires references != [] && !references[0].preferred
    ensures (exists i: nat :: IsOnly(references, i)) <==> exists i: nat :: IsOnly(references[1..], i)
  {
    if i: nat :| IsOnly(references, i) {
      assert forall j :: 0 <= j < |references[1..]| ==> references[1..][j] == references[j + 1];
      assert IsOnly(references[1..], i - 1);
    }
    if i: nat :| IsOnly(references[1..], i) {
      assert forall j :: 0 < j < |references| ==> references[1..][j - 1] == references[j];
      assert IsOnly(references, i + 1);
    }
  }

  lemma ReferencesAreRight(references: seq<Reference>)
    ensures ValidReferences(references) <==> RightReferences(references)
  {
    OnePreferred(references);
  }

  lemma ConversationIsRight(c: Conversation, rules: Rules)
    ensures ValidConversation(c, rules) <==> RightConversation(c, rules)
  {
  }

  lemma ContactIsRight(c: Contact, cs: seq<Conversation>, rules: Rules)
    ensures ValidContact(c, ConversationIDs(cs), rules) <==> RightContact(c, cs, rules)
  {
    KnownAre(c.conversationIDs, cs);
  }

  lemma KnownAre(ids: seq<string>, cs: seq<Conversation>)
    ensures Members(ids) <= ConversationIDs(cs) <==> forall id :: id in ids ==> IsConversation(cs, id)
  {
    forall id
      ensures id in ConversationIDs(cs) <==> IsConversation(cs, id)
      ensures id in Members(ids) <==> id in ids
    {
    }
  }

  lemma MessageIsRight(m: Message, cs: seq<Conversation>, rules: Rules)
    ensures ValidMessage(m, ConversationIDs(cs), Participants(cs), rules) <==> RightMessage(m, cs, rules)
  {
    ReferencesAreRight(m.references);
    assert m.conversationID in ConversationIDs(cs) <==> IsConversation(cs, m.conversationID);
    assert m.sender.Some? ==> (m.sender.value in Participants(cs) <==> TakesPart(cs, m.sender.value));
  }

  lemma ArtifactIsRight(a: Artifact, cs: seq<Conversation>, rules: Rules)
    ensures ValidArtifact(a, ConversationIDs(cs), rules) <==> RightArtifact(a, cs, rules)
  {
    KnownAre(a.conversationIDs, cs);
  }

  // ----- a whole bundle -----

  /** The file is the one the manifest describes, and its reads never held an unfinished line above the limit. */
  ghost predicate IsDescribed(chunks: seq<seq<Byte>>, evidence: Evidence, hash: Hash) {
    var file := Flatten(chunks);
    |file| == evidence.byteCount && |Records(file)| == evidence.recordCount && hash(file) == evidence.sha256
    && Terminated(file) && ResidualsFit(chunks)
  }

  /** Line by line the file holds these values. */
  ghost predicate Holds<T(!new)>(file: seq<Byte>, decode: seq<Byte> -> Option<T>, values: seq<T>) {
    |Records(file)| == |values|
    && forall i :: 0 <= i < |values| ==>
         0 < |Records(file)[i].data| <= 16777216 && decode(Records(file)[i].data) == Some(values[i])
  }

  /** No identity twice, everyone who takes part is a contact, and the records refer to each other without gaps. */
  ghost predicate FitTogether(cs: seq<Conversation>, contacts: seq<Contact>, ms: seq<Message>,
                              artifacts: seq<Artifact>) {
    && (forall i, j :: 0 <= i < j < |cs| ==> cs[i].conversationID != cs[j].conversationID)
    && (forall i, j :: 0 <= i < j < |contacts| ==> contacts[i].participantID != contacts[j].participantID)
    && (forall p :: TakesPart(cs, p) <==> exists c :: c in contacts && c.participantID == p)
    && UniqueMessages(ms) && (forall m :: m in ms ==> m.ordinal <= 9223372036854775807) && UniqueArtifacts(artifacts)
    && ArtifactsClosed(ms, artifacts) && RelationshipsClosed(ms)
  }

  ghost predicate AllRight(cs: seq<Conversation>, contacts: seq<Contact>, ms: seq<Message>, artifacts: seq<Artifact>,
                           rules: Rules) {
    && (forall c :: c in cs ==> RightConversation(c, rules))
    && (forall c :: c in contacts ==> RightContact(c, cs, rules))
    && (forall m :: m in ms ==> RightMessage(m, cs, rules)) && forall a :: a in artifacts ==>
         RightArtifact(a, cs, rules)
  }

  ghost predicate CountsAgree(manifest: Manifest, cs: seq<Conversation>, contacts: seq<Contact>, ms: seq<Message>,
                              artifacts: seq<Artifact>) {
    && |cs| == manifest.enabledConversationCount && |contacts| == manifest.exportedContactCount
    && |ms| == manifest.exportedMessageCount && |artifacts| == manifest.exportedArtifactCount
    && |set i | 0 <= i < |artifacts| && artifacts[i].failed| == manifest.artifactResolutionErrorCount
  }

  ghost predicate MakesUp(b: Bundle, codec: Codec, rules: Rules, hash: Hash, cs: seq<Conversation>,
                          contacts: seq<Contact>,
                          ms: seq<Message>, artifacts: seq<Artifact>) {
    && IsDescribed(b.conversations, b.manifest.conversations, hash)
    && IsDescribed(b.contacts, b.manifest.contacts, hash)
    && IsDescribed(b.messages, b.manifest.messages, hash) && IsDescribed(b.artifacts, b.manifest.artifacts, hash)
    && Holds(Flatten(b.conversations), codec.conversation, cs) && Holds(Flatten(b.contacts), codec.contact, contacts)
    && Holds(Flatten(b.messages), codec.message, ms) && Holds(Flatten(b.artifacts), codec.artifact, artifacts)
    && AllRight(cs, contacts, ms, artifacts, rules) && FitTogether(cs, contacts, ms, artifacts)
    && CountsAgree(b.manifest, cs, contacts, ms, artifacts)
  }

  // ----- the loader asks for exactly that -----

  lemma HoldsValues<T(!new)>(file: seq<Byte>, decode: seq<Byte> -> Option<T>, valid: T -> bool)
    ensures Sound(Records(file), decode, valid)
       <==> AllDecode(Records(file), decode) && Holds(file, decode, Values(Records(file), decode))
            && forall v :: v in Values(Records(file), decode) ==> valid(v)
  {
    if AllDecode(Records(file), decode) {
      var values := Values(Records(file), decode);
      assert forall i :: 0 <= i < |values| ==> values[i] in values;
    }
  }

  lemma OneReading<T(!new)>(file: seq<Byte>, decode: seq<Byte> -> Option<T>, values: seq<T>)
    requires Holds(file, decode, values)
    ensures AllDecode(Records(file), decode) && Values(Records(file), decode) == values
  {
  }

  lemma {:induction false} ErrorsAreFailed(artifacts: seq<Artifact>)
    ensures ErrorCount(artifacts) == |set i | 0 <= i < |artifacts| && artifacts[i].failed|
  {
    if artifacts != [] {
      var last := |artifacts| - 1;
      var front := artifacts[..last];
      ErrorsAreFailed(front);
      var before, all := set i | 0 <= i < |front| && front[i].failed, set i | 0 <= i < |artifacts|
        && artifacts[i].failed;
      assert all == before + if artifacts[last].failed then {last} else {};
    }
  }

  lemma SameParticipants(cs: seq<Conversation>, contacts: seq<Contact>)
    ensures ContactIDs(contacts) == Participants(cs)
       <==> forall p :: TakesPart(cs, p) <==> exists c :: c in contacts && c.participantID == p
  {
    forall p
      ensures p in Participants(cs) <==> TakesPart(cs, p)
      ensures p in ContactIDs(contacts) <==> exists c :: c in contacts && c.participantID == p
    {
    }
  }

  lemma ConversationsLoadIs(b: Bundle, codec: Codec, rules: Rules, hash: Hash, cs: seq<Conversation>)
    requires Holds(Flatten(b.conversations), codec.conversation, cs)
    ensures ConversationsLoad(b, codec, rules, hash)
       <==> IsDescribed(b.conversations, b.manifest.conversations, hash) && |cs| == b.manifest.enabledConversationCount
            && (forall c :: c in cs ==> RightConversation(c, rules))
            && forall i, j :: 0 <= i < j < |cs| ==> cs[i].conversationID != cs[j].conversationID
  {
    var file := Flatten(b.conversations);
    var valid := (c: Conversation) => ValidConversation(c, rules);
    OneReading(file, codec.conversation, cs);
    VisitingMeans(codec.conversation, valid, true, (c: Conversation) => true, (c: Conversation) => c.conversationID,
                  Records(file));
    HoldsValues(file, codec.conversation, valid);
  }

  lemma ContactsLoadIs(b: Bundle, codec: Codec, rules: Rules, hash: Hash, cs: seq<Conversation>, contacts: seq<Contact>)
    requires Holds(Flatten(b.contacts), codec.contact, contacts)
    ensures ContactsLoad(b, ConversationIDs(cs), Participants(cs), codec, rules, hash)
       <==> IsDescribed(b.contacts, b.manifest.contacts, hash) && |contacts| == b.manifest.exportedContactCount
            && (forall c :: c in contacts ==> RightContact(c, cs, rules))
            && (forall i, j :: 0 <= i < j < |contacts| ==> contacts[i].participantID != contacts[j].participantID)
            && forall p :: TakesPart(cs, p) <==> exists c :: c in contacts && c.participantID == p
  {
    var file := Flatten(b.contacts);
    var valid := (c: Contact) => ValidContact(c, ConversationIDs(cs), rules);
    OneReading(file, codec.contact, contacts);
    VisitingMeans(codec.contact, valid, true, (c: Contact) => true, (c: Contact) => c.participantID, Records(file));
    HoldsValues(file, codec.contact, valid);
    forall c
      ensures valid(c) <==> RightContact(c, cs, rules)
    {
      ContactIsRight(c, cs, rules);
    }
    SameParticipants(cs, contacts);
  }

  lemma MessagesLoadIs(b: Bundle, codec: Codec, rules: Rules, hash: Hash, cs: seq<Conversation>, ms: seq<Message>)
    requires Holds(Flatten(b.messages), codec.message, ms)
    ensures FileAccepted(b.messages, b.manifest.messages,
                         MessageVisitor(codec, rules, ConversationIDs(cs), Participants(cs), true), hash)
       <==> IsDescribed(b.messages, b.manifest.messages, hash) && (forall m :: m in ms ==> RightMessage(m, cs, rules))
            && UniqueMessages(ms) && forall m :: m in ms ==> m.ordinal <= 9223372036854775807
  {
    var file := Flatten(b.messages);
    var valid := (m: Message) => ValidMessage(m, ConversationIDs(cs), Participants(cs), rules);
    OneReading(file, codec.message, ms);
    MessagesAccepted(file, codec, rules, ConversationIDs(cs), Participants(cs), true);
    HoldsValues(file, codec.message, valid);
    forall m
      ensures valid(m) <==> RightMessage(m, cs, rules)
    {
      MessageIsRight(m, cs, rules);
    }
    assert forall i :: 0 <= i < |ms| ==> ms[i] in ms;
  }

  lemma ArtifactsLoadIs(b: Bundle, codec: Codec, rules: Rules, hash: Hash, cs: seq<Conversation>,
                        artifacts: seq<Artifact>)
    requires Holds(Flatten(b.artifacts), codec.artifact, artifacts)
    ensures FileAccepted(b.artifacts, b.manifest.artifacts, ArtifactVisitor(codec, rules, ConversationIDs(cs), true),
                         hash)
       <==> IsDescribed(b.artifacts, b.manifest.artifacts, hash)
            && (forall a :: a in artifacts ==> RightArtifact(a, cs, rules)) && UniqueArtifacts(artifacts)
  {
    var file := Flatten(b.artifacts);
    var valid := (a: Artifact) => ValidArtifact(a, ConversationIDs(cs), rules);
    OneReading(file, codec.artifact, artifacts);
    ArtifactsAccepted(file, codec, rules, ConversationIDs(cs), true);
    HoldsValues(file, codec.artifact, valid);
    forall a
      ensures valid(a) <==> RightArtifact(a, cs, rules)
    {
      ArtifactIsRight(a, cs, rules);
    }
  }

  /** A bundle is accepted if and only if its four files hold records that make it up. */
  lemma LoadableMeans(b: Bundle, codec: Codec, rules: Rules, hash: Hash)
    ensures Loadable(b, codec, rules, hash)
       <==> exists cs, contacts, ms, artifacts :: MakesUp(b, codec, rules, hash, cs, contacts, ms, artifacts)
  {
    if Loadable(b, codec, rules, hash) {
      var cs, contacts, ms, artifacts := LoadableMakesUp(b, codec, rules, hash);
    }
    if exists cs, contacts, ms, artifacts :: MakesUp(b, codec, rules, hash, cs, contacts, ms, artifacts) {
      var cs, contacts, ms, artifacts :| MakesUp(b, codec, rules, hash, cs, contacts, ms, artifacts);
      MadeUpIsLoadable(b, codec, rules, hash, cs, contacts, ms, artifacts);
    }
  }

  lemma AcceptedHolds<T(!new)>(file: seq<Byte>, decode: seq<Byte> -> Option<T>, valid: T -> bool)
    returns (values: seq<T>)
    requires Sound(Records(file), decode, valid)
    ensures Holds(file, decode, values) && AllDecode(Records(file), decode) && values == Values(Records(file), decode)
  {
    HoldsValues(file, decode, valid);
    values := Values(Records(file), decode);
  }

  lemma LoadableMakesUp(b: Bundle, codec: Codec, rules: Rules, hash: Hash)
    returns (cs: seq<Conversation>, contacts: seq<Contact>, ms: seq<Message>, artifacts: seq<Artifact>)
    requires Loadable(b, codec, rules, hash)
    ensures MakesUp(b, codec, rules, hash, cs, contacts, ms, artifacts)
  {
    var ids, people := ConversationIDs(ConversationsIn(b, codec)), Participants(ConversationsIn(b, codec));
    VisitingMeans(codec.conversation, (c: Conversation) => ValidConversation(c, rules), true, (c: Conversation) => true,
                  (c: Conversation) => c.conversationID, Records(Flatten(b.conversations)));
    cs := AcceptedHolds(Flatten(b.conversations), codec.conversation, (c: Conversation) => ValidConversation(c, rules));
    VisitingMeans(codec.contact, (c: Contact) => ValidContact(c, ids, rules), true, (c: Contact) => true,
                  (c: Contact) => c.participantID, Records(Flatten(b.contacts)));
    contacts := AcceptedHolds(Flatten(b.contacts), codec.contact, (c: Contact) => ValidContact(c, ids, rules));
    MessagesAccepted(Flatten(b.messages), codec, rules, ids, people, true);
    ms := AcceptedHolds(Flatten(b.messages), codec.message, (m: Message) => ValidMessage(m, ids, people, rules));
    ArtifactsAccepted(Flatten(b.artifacts), codec, rules, ids, true);
    artifacts := AcceptedHolds(Flatten(b.artifacts), codec.artifact, (a: Artifact) => ValidArtifact(a, ids, rules));
    ConversationsLoadIs(b, codec, rules, hash, cs);
    ContactsLoadIs(b, codec, rules, hash, cs, contacts);
    MessagesLoadIs(b, codec, rules, hash, cs, ms);
    ArtifactsLoadIs(b, codec, rules, hash, cs, artifacts);
    ErrorsAreFailed(artifacts);
  }

  lemma MadeUpIsLoadable(b: Bundle, codec: Codec, rules: Rules, hash: Hash, cs: seq<Conversation>,
                         contacts: seq<Contact>,
                         ms: seq<Message>, artifacts: seq<Artifact>)
    requires MakesUp(b, codec, rules, hash, cs, contacts, ms, artifacts)
    ensures Loadable(b, codec, rules, hash)
  {
    OneReading(Flatten(b.conversations), codec.conversation, cs);
    OneReading(Flatten(b.messages), codec.message, ms);
    OneReading(Flatten(b.artifacts), codec.artifact, artifacts);
    ConversationsLoadIs(b, codec, rules, hash, cs);
    ContactsLoadIs(b, codec, rules, hash, cs, contacts);
    MessagesLoadIs(b, codec, rules, hash, cs, ms);
    ArtifactsLoadIs(b, codec, rules, hash, cs, artifacts);
    ErrorsAreFailed(artifacts);
  }
}
