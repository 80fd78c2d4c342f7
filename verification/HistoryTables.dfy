/**
  The derived index of a history bundle as SQLite keeps it: its tables, the
  inserts that fill them, and the queries that check the references
  (Sources/GreenBubblesHistory/HistoryBundleLoader.swift, `buildIndex`,
  `configureNewIndex` and `verifyIndexReferences`).
 */
module HistoryTables {
  import opened Wrappers
  import opened LineScanner

  // ----- decoded records -----

  datatype Reference = Reference(artifactID: string, role: string, preferred: bool)

  datatype Relationship = Relationship(kind: string, target: Option<string>, resolved: bool)

  datatype Message = Message(
    canonicalID: string, conversationID: string, sender: Option<string>, ordinal: nat, createdAt: Option<int>,
    references: seq<Reference>, relationships: seq<Relationship>)

  datatype Artifact = Artifact(artifactID: string, conversationIDs: seq<string>, failed: bool)

  // ----- rows -----

  datatype MessageRow = MessageRow(canonicalID: string, conversationID: string, ordinal: nat, createdAt: Option<int>,
                                   offset: nat, length: nat)

  /** `message` is the row identifier, which counts from one. */
  datatype ReferenceRow = ReferenceRow(message: nat, artifactID: string)

  datatype RelationshipRow = RelationshipRow(message: nat, target: string, resolved: bool)

  datatype ArtifactRow = ArtifactRow(artifactID: string, failed: bool, offset: nat, length: nat)

  datatype ClaimRow = ClaimRow(artifactID: string, conversationID: string)

  datatype Tables = Tables(
    messages: seq<MessageRow>, references: seq<ReferenceRow>, relationships: seq<RelationshipRow>,
    artifacts: seq<ArtifactRow>, claims: seq<ClaimRow>)

  const EMPTY := Tables([], [], [], [], [])

  function RowOf(r: Record, m: Message): MessageRow {
    MessageRow(m.canonicalID, m.conversationID, m.ordinal, m.createdAt, r.offset, r.length)
  }

  function ArtifactRowOf(r: Record, a: Artifact): ArtifactRow {
    ArtifactRow(a.artifactID, a.failed, r.offset, r.length)
  }

  // ----- the reference graph -----

  predicate Mentions(m: Message, artifactID: string) {
    exists i :: 0 <= i < |m.references| && m.references[i].artifactID == artifactID
  }

  /** The conversations of the messages that reference the artifact. */
  function ConversationsOf(ms: seq<Message>, artifactID: string): set<string> {
    set m | m in ms && Mentions(m, artifactID) :: m.conversationID
  }

  predicate Leads(ms: seq<Message>, source: Message, target: string) {
    exists m :: m in ms && m.canonicalID == target && m.conversationID == source.conversationID
  }

  predicate Present(artifacts: seq<Artifact>, artifactID: string) {
    exists a :: a in artifacts && a.artifactID == artifactID
  }

  /**
    Every reference meets an artifact, and an artifact claims the conversations it is referenced from,
    at least one.
   */
  ghost predicate ArtifactsClosed(ms: seq<Message>, artifacts: seq<Artifact>) {
    && (forall m, r :: m in ms && r in m.references ==> Present(artifacts, r.artifactID))
    && (forall a :: a in artifacts ==> (set c | c in a.conversationIDs) == ConversationsOf(ms, a.artifactID) != {})
  }

  /** Every resolved relationship leads to a message of its own conversation. */
  ghost predicate RelationshipsClosed(ms: seq<Message>) {
    forall m, r :: m in ms && r in m.relationships && r.resolved && r.target.Some? ==> Leads(ms, m, r.target.value)
  }

  ghost predicate UniqueMessages(ms: seq<Message>) {
    forall i, j :: 0 <= i < j < |ms| ==> ms[i].canonicalID != ms[j].canonicalID
  }

  ghost predicate UniqueArtifacts(artifacts: seq<Artifact>) {
    forall i, j :: 0 <= i < j < |artifacts| ==> artifacts[i].artifactID != artifacts[j].artifactID
  }

  // ----- what the tables hold -----

  ghost predicate MessageRowsShow(t: Tables, records: seq<Record>, ms: seq<Message>) {
    |t.messages| == |records| == |ms| && forall i :: 0 <= i < |ms| ==> t.messages[i] == RowOf(records[i], ms[i])
  }

  ghost predicate ReferenceRowsShow(t: Tables, ms: seq<Message>) {
    forall row :: row in t.references <==> 1 <= row.message <= |ms| && Mentions(ms[row.message - 1], row.artifactID)
  }

  predicate Points(m: Message, target: string, resolved: bool) {
    exists i :: 0 <= i < |m.relationships| && m.relationships[i].target == Some(target)
      && m.relationships[i].resolved == resolved
  }

  ghost predicate RelationshipRowsShow(t: Tables, ms: seq<Message>) {
    forall row :: row in t.relationships <==>
      1 <= row.message <= |ms| && Points(ms[row.message - 1], row.target, row.resolved)
  }

  ghost predicate ArtifactRowsShow(t: Tables, records: seq<Record>, artifacts: seq<Artifact>) {
    |t.artifacts| == |records| == |artifacts| && forall i :: 0 <= i < |artifacts| ==>
      t.artifacts[i] == ArtifactRowOf(records[i], artifacts[i])
  }

  ghost predicate ClaimRowsShow(t: Tables, artifacts: seq<Artifact>) {
    forall row :: row in t.claims <==>
      exists a :: a in artifacts && a.artifactID == row.artifactID && row.conversationID in a.conversationIDs
  }

  ghost predicate Shows(t: Tables, mr: seq<Record>, ms: seq<Message>, ar: seq<Record>, artifacts: seq<Artifact>) {
    MessageRowsShow(t, mr, ms) && ReferenceRowsShow(t, ms) && RelationshipRowsShow(t, ms)
    && ArtifactRowsShow(t, ar, artifacts) && ClaimRowsShow(t, artifacts)
  }

  // ----- the five queries, each asking for a row -----

  predicate Joined(t: Tables, message: nat) {
    1 <= message <= |t.messages|
  }

  predicate AbsentArtifact(t: Tables) {
    exists r :: r in t.references && !exists a :: a in t.artifacts && a.artifactID == r.artifactID
  }

  predicate UnreferencedArtifact(t: Tables) {
    exists a :: a in t.artifacts && !exists r :: r in t.references && r.artifactID == a.artifactID
  }

  predicate OutsideConversation(t: Tables) {
    exists r :: r in t.references && Joined(t, r.message)
      && ClaimRow(r.artifactID, t.messages[r.message - 1].conversationID) !in t.claims
  }

  predicate ClaimWithoutReference(t: Tables) {
    exists c :: c in t.claims && !exists r :: r in t.references && Joined(t, r.message) && r.artifactID == c.artifactID
                                           && t.messages[r.message - 1].conversationID == c.conversationID
  }

  predicate StrayRelationship(t: Tables) {
    exists r :: r in t.relationships && r.resolved && Joined(t, r.message)
      && ((!exists target :: target in t.messages && target.canonicalID == r.target)
          || (exists target :: target in t.messages && target.canonicalID == r.target
                               && target.conversationID != t.messages[r.message - 1].conversationID))
  }

  lemma ReferenceMeetsArtifact(ms: seq<Message>, artifacts: seq<Artifact>, m: Message, r: Reference)
    returns (a: Artifact)
    requires ArtifactsClosed(ms, artifacts) && m in ms && r in m.references
    ensures a in artifacts && a.artifactID == r.artifactID && m.conversationID in a.conversationIDs
  {
    a :| a in artifacts && a.artifactID == r.artifactID;
    assert Mentions(m, a.artifactID) && m.conversationID in ConversationsOf(ms, a.artifactID);
    assert m.conversationID in (set c | c in a.conversationIDs);
  }

  // ----- the queries decide whether the graph is closed -----

  lemma MentionHasRow(t: Tables, mr: seq<Record>, ms: seq<Message>, m: Message, id: string) returns (row: ReferenceRow)
    requires MessageRowsShow(t, mr, ms) && ReferenceRowsShow(t, ms) && m in ms && Mentions(m, id)
    ensures row in t.references && row.artifactID == id && Joined(t, row.message)
    ensures t.messages[row.message - 1].conversationID == m.conversationID
  {
    var i :| 0 <= i < |ms| && ms[i] == m;
    row := ReferenceRow(i + 1, id);
  }

  lemma RowHasMention(t: Tables, mr: seq<Record>, ms: seq<Message>, row: ReferenceRow) returns (m: Message)
    requires MessageRowsShow(t, mr, ms) && ReferenceRowsShow(t, ms) && row in t.references
    ensures m in ms && Mentions(m, row.artifactID) && Joined(t, row.message)
    ensures t.messages[row.message - 1].conversationID == m.conversationID
  {
    m := ms[row.message - 1];
  }

  lemma ArtifactHasRow(t: Tables, ar: seq<Record>, artifacts: seq<Artifact>, id: string)
    requires ArtifactRowsShow(t, ar, artifacts)
    ensures (exists row :: row in t.artifacts && row.artifactID == id) <==> Present(artifacts, id)
  {
    if row :| row in t.artifacts && row.artifactID == id {
      var i :| 0 <= i < |t.artifacts| && t.artifacts[i] == row;
      assert artifacts[i] in artifacts && artifacts[i].artifactID == id;
    }
    if a :| a in artifacts && a.artifactID == id {
      var i :| 0 <= i < |artifacts| && artifacts[i] == a;
      assert t.artifacts[i] in t.artifacts && t.artifacts[i].artifactID == id;
    }
  }

  lemma ClaimIs(t: Tables, artifacts: seq<Artifact>, a: Artifact, c: string)
    requires ClaimRowsShow(t, artifacts) && UniqueArtifacts(artifacts) && a in artifacts
    ensures ClaimRow(a.artifactID, c) in t.claims <==> c in a.conversationIDs
  {
    var row := ClaimRow(a.artifactID, c);
    if row in t.claims {
      var other :| other in artifacts && other.artifactID == row.artifactID && c in other.conversationIDs;
      var i :| 0 <= i < |artifacts| && artifacts[i] == a;
      var j :| 0 <= j < |artifacts| && artifacts[j] == other;
    }
  }

  ghost predicate EveryClaimMade(artifacts: seq<Artifact>) {
    forall a :: a in artifacts ==> a.conversationIDs != []
  }

  lemma QueriesGiveArtifacts(t: Tables, mr: seq<Record>, ms: seq<Message>, ar: seq<Record>, artifacts: seq<Artifact>)
    requires Shows(t, mr, ms, ar, artifacts) && UniqueArtifacts(artifacts) && EveryClaimMade(artifacts)
    requires !AbsentArtifact(t) && !OutsideConversation(t) && !ClaimWithoutReference(t)
    ensures ArtifactsClosed(ms, artifacts)
  {
    forall m, r | m in ms && r in m.references
      ensures Present(artifacts, r.artifactID)
    {
      assert Mentions(m, r.artifactID);
      var row := MentionHasRow(t, mr, ms, m, r.artifactID);
      ArtifactHasRow(t, ar, artifacts, r.artifactID);
    }
    forall a | a in artifacts
      ensures (set c | c in a.conversationIDs) == ConversationsOf(ms, a.artifactID) != {}
    {
      forall c
        ensures c in a.conversationIDs <==> c in ConversationsOf(ms, a.artifactID)
      {
        ClaimIs(t, artifacts, a, c);
        if c in a.conversationIDs {
          var claim := ClaimRow(a.artifactID, c);
          var row :| row in t.references && Joined(t, row.message) && row.artifactID == claim.artifactID
                     && t.messages[row.message - 1].conversationID == claim.conversationID;
          var m := RowHasMention(t, mr, ms, row);
        }
        if c in ConversationsOf(ms, a.artifactID) {
          var m :| m in ms && Mentions(m, a.artifactID) && m.conversationID == c;
          var row := MentionHasRow(t, mr, ms, m, a.artifactID);
        }
      }
      assert a.conversationIDs[0] in a.conversationIDs;
    }
  }

  lemma ArtifactsAnswerQueries(t: Tables, mr: seq<Record>, ms: seq<Message>, ar: seq<Record>, artifacts: seq<Artifact>)
    requires Shows(t, mr, ms, ar, artifacts) && UniqueArtifacts(artifacts) && ArtifactsClosed(ms, artifacts)
    ensures !AbsentArtifact(t) && !OutsideConversation(t)
  {
    forall row | row in t.references
      ensures exists a :: a in t.artifacts && a.artifactID == row.artifactID
      ensures Joined(t, row.message) ==>
        ClaimRow(row.artifactID, t.messages[row.message - 1].conversationID) in t.claims
    {
      var m := RowHasMention(t, mr, ms, row);
      var i :| 0 <= i < |m.references| && m.references[i].artifactID == row.artifactID;
      assert m.references[i] in m.references;
      var a :| a in artifacts && a.artifactID == row.artifactID;
      ArtifactHasRow(t, ar, artifacts, row.artifactID);
      assert m.conversationID in ConversationsOf(ms, a.artifactID);
      assert m.conversationID in (set c | c in a.conversationIDs);
      ClaimIs(t, artifacts, a, m.conversationID);
    }
  }

  lemma ClosedArtifactReferenced(t: Tables, mr: seq<Record>, ms: seq<Message>, ar: seq<Record>,
                                 artifacts: seq<Artifact>)
    requires Shows(t, mr, ms, ar, artifacts) && ArtifactsClosed(ms, artifacts)
    ensures !UnreferencedArtifact(t)
  {
    forall row | row in t.artifacts
      ensures exists r :: r in t.references && r.artifactID == row.artifactID
    {
      var i :| 0 <= i < |t.artifacts| && t.artifacts[i] == row;
      var a := artifacts[i];
      assert a in artifacts && a.artifactID == row.artifactID;
      var c :| c in ConversationsOf(ms, a.artifactID);
      var m :| m in ms && Mentions(m, a.artifactID);
      var r := MentionHasRow(t, mr, ms, m, a.artifactID);
    }
  }

  lemma ClosedClaimReferenced(t: Tables, mr: seq<Record>, ms: seq<Message>, ar: seq<Record>, artifacts: seq<Artifact>)
    requires Shows(t, mr, ms, ar, artifacts) && ArtifactsClosed(ms, artifacts)
    ensures !ClaimWithoutReference(t)
  {
    forall c | c in t.claims
      ensures exists r :: r in t.references && Joined(t, r.message) && r.artifactID == c.artifactID
                          && t.messages[r.message - 1].conversationID == c.conversationID
    {
      var a :| a in artifacts && a.artifactID == c.artifactID && c.conversationID in a.conversationIDs;
      assert c.conversationID in (set x | x in a.conversationIDs);
      assert c.conversationID in ConversationsOf(ms, a.artifactID);
      var m :| m in ms && Mentions(m, a.artifactID) && m.conversationID == c.conversationID;
      var r := MentionHasRow(t, mr, ms, m, a.artifactID);
    }
  }

  lemma LeadsHasRow(t: Tables, mr: seq<Record>, ms: seq<Message>, m: Message, message: nat, target: string)
    requires MessageRowsShow(t, mr, ms) && UniqueMessages(ms) && Joined(t, message) && ms[message - 1] == m
    ensures Leads(ms, m, target) <==>
      ((exists row :: row in t.messages && row.canonicalID == target)
       && !(exists row ::
            row in t.messages && row.canonicalID == target
              && row.conversationID != t.messages[message - 1].conversationID))
  {
    if row :| row in t.messages && row.canonicalID == target {
      var i :| 0 <= i < |t.messages| && t.messages[i] == row;
      assert ms[i] in ms && ms[i].canonicalID == target;
    }
    if Leads(ms, m, target) {
      var other :| other in ms && other.canonicalID == target && other.conversationID == m.conversationID;
      var j :| 0 <= j < |ms| && ms[j] == other;
      assert t.messages[j] in t.messages;
      forall row | row in t.messages && row.canonicalID == target
        ensures row.conversationID == m.conversationID
      {
        var i :| 0 <= i < |t.messages| && t.messages[i] == row;
        assert i == j;
      }
    }
  }

  lemma QueryDecidesRelationships(t: Tables, mr: seq<Record>, ms: seq<Message>)
    requires MessageRowsShow(t, mr, ms) && RelationshipRowsShow(t, ms) && UniqueMessages(ms)
    ensures !StrayRelationship(t) <==> RelationshipsClosed(ms)
  {
    if !StrayRelationship(t) {
      forall m, r | m in ms && r in m.relationships && r.resolved && r.target.Some?
        ensures Leads(ms, m, r.target.value)
      {
        var i :| 0 <= i < |ms| && ms[i] == m;
        assert Points(m, r.target.value, true);
        assert RelationshipRow(i + 1, r.target.value, true) in t.relationships;
        LeadsHasRow(t, mr, ms, m, i + 1, r.target.value);
      }
    }
    if RelationshipsClosed(ms) {
      forall row | row in t.relationships && row.resolved && Joined(t, row.message)
        ensures (exists target :: target in t.messages && target.canonicalID == row.target)
        ensures !(exists target :: target in t.messages && target.canonicalID == row.target
                                   && target.conversationID != t.messages[row.message - 1].conversationID)
      {
        var m := ms[row.message - 1];
        var i :| 0 <= i < |m.relationships| && m.relationships[i].target == Some(row.target)
          && m.relationships[i].resolved == row.resolved;
        assert m.relationships[i] in m.relationships;
        LeadsHasRow(t, mr, ms, m, row.message, row.target);
      }
    }
  }

  predicate ArtifactQueriesEmpty(t: Tables) {
    !AbsentArtifact(t) && !UnreferencedArtifact(t) && !OutsideConversation(t) && !ClaimWithoutReference(t)
  }

  /** The first four queries find no row exactly when the artifacts are closed, the fifth when the relationships are. */
  lemma QueriesDecideParts(t: Tables, mr: seq<Record>, ms: seq<Message>, ar: seq<Record>, artifacts: seq<Artifact>)
    requires Shows(t, mr, ms, ar, artifacts) && UniqueMessages(ms) && UniqueArtifacts(artifacts)
      && EveryClaimMade(artifacts)
    ensures ArtifactQueriesEmpty(t) <==> ArtifactsClosed(ms, artifacts)
    ensures !StrayRelationship(t) <==> RelationshipsClosed(ms)
  {
    QueryDecidesRelationships(t, mr, ms);
    if ArtifactQueriesEmpty(t) {
      QueriesGiveArtifacts(t, mr, ms, ar, artifacts);
    }
    if ArtifactsClosed(ms, artifacts) {
      ArtifactsAnswerQueries(t, mr, ms, ar, artifacts);
      ClosedArtifactReferenced(t, mr, ms, ar, artifacts);
      ClosedClaimReferenced(t, mr, ms, ar, artifacts);
    }
  }
}
