/**
  Filling the tables of a new index, record by record
  (Sources/GreenBubblesHistory/HistoryBundleLoader.swift, the visitors of
  `buildIndex`, and `verifyIndexReferences`).
 */
module HistoryDatabase {
  import opened Wrappers
  import opened LineScanner
  import opened HistoryTables

  // ----- the rows of whole files -----

  function ReferencesOf(message: nat, references: seq<Reference>): seq<ReferenceRow> {
    if references == [] then []
    else
      var last := |references| - 1;
      ReferencesOf(message, references[..last]) + [ReferenceRow(message, references[last].artifactID)]
  }

  /** Only relationships with a target are stored. */
  function RelationshipsOf(message: nat, relationships: seq<Relationship>): seq<RelationshipRow> {
    if relationships == [] then []
    else
      var last := |relationships| - 1;
      var r := relationships[last];
      RelationshipsOf(message, relationships[..last])
      + (if r.target.Some? then [RelationshipRow(message, r.target.value, r.resolved)] else [])
  }

  function ClaimsOf(artifactID: string, conversationIDs: seq<string>): seq<ClaimRow> {
    if conversationIDs == [] then []
    else
      var last := |conversationIDs| - 1;
      ClaimsOf(artifactID, conversationIDs[..last]) + [ClaimRow(artifactID, conversationIDs[last])]
  }

  function MessageTables(records: seq<Record>, ms: seq<Message>): Tables
    requires |records| == |ms|
  {
    if ms == [] then EMPTY
    else
      var last := |ms| - 1;
      WithMessage(MessageTables(records[..last], ms[..last]), records[last], ms[last])
  }

  /** Row identifiers follow the order of insertion. */
  function WithMessage(t: Tables, r: Record, m: Message): Tables {
    var rowID := |t.messages| + 1;
    t.(messages := t.messages + [RowOf(r, m)],
       references := t.references + ReferencesOf(rowID, m.references),
       relationships := t.relationships + RelationshipsOf(rowID, m.relationships))
  }

  function WithArtifact(t: Tables, r: Record, a: Artifact): Tables {
    t.(artifacts := t.artifacts + [ArtifactRowOf(r, a)], claims := t.claims + ClaimsOf(a.artifactID, a.conversationIDs))
  }

  /** The tables an index of these records holds. */
  function TablesOf(mr: seq<Record>, ms: seq<Message>, ar: seq<Record>, artifacts: seq<Artifact>): Tables
    requires |mr| == |ms| && |ar| == |artifacts|
  {
    if artifacts == [] then MessageTables(mr, ms)
    else
      var last := |artifacts| - 1;
      WithArtifact(TablesOf(mr, ms, ar[..last], artifacts[..last]), ar[last], artifacts[last])
  }

  // ----- they show exactly what the records say -----

  lemma {:induction false} ReferencesOfMeans(message: nat, references: seq<Reference>, row: ReferenceRow)
    ensures row in ReferencesOf(message, references) <==>
      row.message == message && exists i :: 0 <= i < |references| && references[i].artifactID == row.artifactID
  {
    if references != [] {
      var last := |references| - 1;
      ReferencesOfMeans(message, references[..last], row);
      if i :| 0 <= i < |references| && references[i].artifactID == row.artifactID {
        assert i < last ==> references[..last][i].artifactID == row.artifactID;
      }
    }
  }

  lemma {:induction false} RelationshipsOfMeans(message: nat, relationships: seq<Relationship>, row: RelationshipRow)
    ensures row in RelationshipsOf(message, relationships) <==>
      row.message == message && exists i ::
        0 <= i < |relationships| && relationships[i].target == Some(row.target)
          && relationships[i].resolved == row.resolved
  {
    if relationships != [] {
      var last := |relationships| - 1;
      RelationshipsOfMeans(message, relationships[..last], row);
      if i :|
        0 <= i < |relationships| && relationships[i].target == Some(row.target)
        && relationships[i].resolved == row.resolved {
        assert i < last ==> relationships[..last][i] == relationships[i];
      }
    }
  }

  lemma {:induction false} ClaimsOfMeans(artifactID: string, conversationIDs: seq<string>, row: ClaimRow)
    ensures row in ClaimsOf(artifactID, conversationIDs)
       <==> row.artifactID == artifactID && row.conversationID in conversationIDs
  {
    if conversationIDs != [] {
      var last := |conversationIDs| - 1;
      ClaimsOfMeans(artifactID, conversationIDs[..last], row);
      assert conversationIDs == conversationIDs[..last] + [conversationIDs[last]];
    }
  }

  lemma ReferencesShown(t: Tables, ms: seq<Message>, r: Record, m: Message)
    requires |t.messages| == |ms| && ReferenceRowsShow(t, ms)
    ensures ReferenceRowsShow(WithMessage(t, r, m), ms + [m])
  {
    forall row: ReferenceRow
      ensures row in t.references + ReferencesOf(|ms| + 1, m.references) <==>
        1 <= row.message <= |ms| + 1 && Mentions((ms + [m])[row.message - 1], row.artifactID)
    {
      ReferencesOfMeans(|ms| + 1, m.references, row);
    }
  }

  lemma RelationshipsShown(t: Tables, ms: seq<Message>, r: Record, m: Message)
    requires |t.messages| == |ms| && RelationshipRowsShow(t, ms)
    ensures RelationshipRowsShow(WithMessage(t, r, m), ms + [m])
  {
    forall row: RelationshipRow
      ensures row in t.relationships + RelationshipsOf(|ms| + 1, m.relationships) <==>
        1 <= row.message <= |ms| + 1 && Points((ms + [m])[row.message - 1], row.target, row.resolved)
    {
      RelationshipsOfMeans(|ms| + 1, m.relationships, row);
    }
  }

  lemma MessagesShown(t: Tables, records: seq<Record>, ms: seq<Message>, r: Record, m: Message)
    requires MessageRowsShow(t, records, ms)
    ensures MessageRowsShow(WithMessage(t, r, m), records + [r], ms + [m])
  {
  }

  lemma ClaimsShown(t: Tables, artifacts: seq<Artifact>, r: Record, a: Artifact)
    requires ClaimRowsShow(t, artifacts)
    ensures ClaimRowsShow(WithArtifact(t, r, a), artifacts + [a])
  {
    forall row: ClaimRow
      ensures row in t.claims + ClaimsOf(a.artifactID, a.conversationIDs) <==>
        exists x :: x in artifacts + [a] && x.artifactID == row.artifactID && row.conversationID in x.conversationIDs
    {
      ClaimsOfMeans(a.artifactID, a.conversationIDs, row);
      assert a in artifacts + [a];
    }
  }

  lemma ArtifactsShown(t: Tables, records: seq<Record>, artifacts: seq<Artifact>, r: Record, a: Artifact)
    requires ArtifactRowsShow(t, records, artifacts)
    ensures ArtifactRowsShow(WithArtifact(t, r, a), records + [r], artifacts + [a])
  {
  }

  lemma {:induction false} MessageTablesShow(records: seq<Record>, ms: seq<Message>)
    requires |records| == |ms|
    ensures var t := MessageTables(records, ms);
            MessageRowsShow(t, records, ms) && ReferenceRowsShow(t, ms) && RelationshipRowsShow(t, ms)
              && t.artifacts == [] && t.claims == []
  {
    if ms != [] {
      var last := |ms| - 1;
      var rs, front, r, m := records[..last], ms[..last], records[last], ms[last];
      MessageTablesShow(rs, front);
      var before := MessageTables(rs, front);
      assert front + [m] == ms && rs + [r] == records;
      MessagesShown(before, rs, front, r, m);
      ReferencesShown(before, front, r, m);
      RelationshipsShown(before, front, r, m);
    }
  }

  lemma {:induction false} TablesOfShow(mr: seq<Record>, ms: seq<Message>, ar: seq<Record>, artifacts: seq<Artifact>)
    requires |mr| == |ms| && |ar| == |artifacts|
    ensures Shows(TablesOf(mr, ms, ar, artifacts), mr, ms, ar, artifacts)
  {
    if artifacts == [] {
      MessageTablesShow(mr, ms);
    } else {
      var last := |artifacts| - 1;
      var rs, front, r, a := ar[..last], artifacts[..last], ar[last], artifacts[last];
      TablesOfShow(mr, ms, rs, front);
      var before := TablesOf(mr, ms, rs, front);
      assert front + [a] == artifacts && rs + [r] == ar;
      ArtifactsShown(before, rs, front, r, a);
      ClaimsShown(before, front, r, a);
    }
  }

  // ----- the database -----

  datatype ReferenceError =
    | AbsentArtifactReferenced
    | ArtifactUnreferenced
    | ArtifactOutsideConversation
    | ClaimUnreferenced
    | RelationshipStray

  class Database {
    var messages: seq<MessageRow>
    var references: seq<ReferenceRow>
    var relationships: seq<RelationshipRow>
    var artifacts: seq<ArtifactRow>
    var claims: seq<ClaimRow>

    function Contents(): Tables
      reads this
    {
      Tables(messages, references, relationships, artifacts, claims)
    }

    constructor ()
      ensures Contents() == EMPTY
    {
      messages, references, relationships, artifacts, claims := [], [], [], [], [];
    }

    /** Refused exactly when the canonical identity is taken. */
    method InsertMessage(r: Record, m: Message) returns (ok: bool)
      modifies this
      ensures ok <==> forall row :: row in old(messages) ==> row.canonicalID != m.canonicalID
      ensures Contents() == if ok then WithMessage(old(Contents()), r, m) else old(Contents())
    {
      ok := forall row :: row in messages ==> row.canonicalID != m.canonicalID;
      if !ok {
        return;
      }
      messages := messages + [RowOf(r, m)];
      var rowID := |messages|;
      for i := 0 to |m.references|
        invariant Contents()
          == old(Contents()).(messages := messages,
                              references := old(references) + ReferencesOf(rowID, m.references[..i]))
        invariant messages == old(messages) + [RowOf(r, m)]
      {
        assert m.references[..i + 1][..i] == m.references[..i];
        references := references + [ReferenceRow(rowID, m.references[i].artifactID)];
      }
      assert m.references[..|m.references|] == m.references;
      for i := 0 to |m.relationships|
        invariant messages == old(messages) + [RowOf(r, m)]
        invariant references == old(references) + ReferencesOf(rowID, m.references)
        invariant relationships == old(relationships) + RelationshipsOf(rowID, m.relationships[..i])
        invariant artifacts == old(artifacts) && claims == old(claims)
      {
        assert m.relationships[..i + 1][..i] == m.relationships[..i];
        var relationship := m.relationships[i];
        if relationship.target.Some? {
          relationships := relationships + [RelationshipRow(rowID, relationship.target.value, relationship.resolved)];
        }
      }
      assert m.relationships[..|m.relationships|] == m.relationships;
    }

    /** Refused exactly when the artifact identity is taken or a claim is repeated. */
    method InsertArtifact(r: Record, a: Artifact) returns (ok: bool)
      requires forall claim :: claim in claims ==> exists row :: row in artifacts && row.artifactID == claim.artifactID
      modifies this
      ensures ok <==> (forall row :: row in old(artifacts) ==> row.artifactID != a.artifactID)
                      && (forall i, j :: 0 <= i < j < |a.conversationIDs| ==>
                          a.conversationIDs[i] != a.conversationIDs[j])
      ensures ok ==> Contents() == WithArtifact(old(Contents()), r, a)
    {
      ok := forall row :: row in artifacts ==> row.artifactID != a.artifactID;
      if !ok {
        return;
      }
      artifacts := artifacts + [ArtifactRowOf(r, a)];
      for i := 0 to |a.conversationIDs|
        invariant Contents() == old(Contents()).(artifacts := old(artifacts) + [ArtifactRowOf(r, a)],
                                                 claims := old(claims) + ClaimsOf(a.artifactID, a.conversationIDs[..i]))
        invariant forall j, k :: 0 <= j < k < i ==> a.conversationIDs[j] != a.conversationIDs[k]
      {
        var claim := ClaimRow(a.artifactID, a.conversationIDs[i]);
        ClaimsOfMeans(a.artifactID, a.conversationIDs[..i], claim);
        if claim in claims {
          ok := false;
          assert a.conversationIDs[i] in a.conversationIDs[..i];
          return;
        }
        assert a.conversationIDs[i] !in a.conversationIDs[..i];
        assert a.conversationIDs[..i + 1][..i] == a.conversationIDs[..i];
        claims := claims + [claim];
      }
      assert a.conversationIDs[..|a.conversationIDs|] == a.conversationIDs;
    }

    /** Of tables that show valid records, the five queries find nothing exactly when the reference graph is closed. */
    method VerifyReferences(ghost mr: seq<Record>, ghost ms: seq<Message>, ghost ar: seq<Record>,
                            ghost values: seq<Artifact>)
      returns (r: Option<ReferenceError>)
      requires Shows(Contents(), mr, ms, ar, values) && UniqueMessages(ms) && UniqueArtifacts(values)
        && EveryClaimMade(values)
      ensures r.None? <==> ArtifactsClosed(ms, values) && RelationshipsClosed(ms)
      ensures r == Some(RelationshipStray) <==> ArtifactsClosed(ms, values) && !RelationshipsClosed(ms)
    {
      QueriesDecideParts(Contents(), mr, ms, ar, values);
      if AbsentArtifact(Contents()) {
        return Some(AbsentArtifactReferenced);
      }
      if UnreferencedArtifact(Contents()) {
        return Some(ArtifactUnreferenced);
      }
      if OutsideConversation(Contents()) {
        return Some(ArtifactOutsideConversation);
      }
      if ClaimWithoutReference(Contents()) {
        return Some(ClaimUnreferenced);
      }
      if StrayRelationship(Contents()) {
        return Some(RelationshipStray);
      }
      return None;
    }
  }
}
