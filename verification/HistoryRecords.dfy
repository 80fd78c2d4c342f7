/**
  The records of a history bundle, and when a whole file of them is accepted
  (Sources/GreenBubblesHistory/HistoryBundleLoader.swift, the `validate`
  functions and the visitors of the four scans).

  JSON decoding is a parameter, and so are the checks of a record that do not
  involve other records.
 */
module HistoryRecords {
  import opened Wrappers
  import opened Sequences
  import opened Volume
  import opened LineScanner
  import opened HistoryTables

  datatype Conversation = Conversation(conversationID: string, participants: seq<string>)

  datatype Contact = Contact(participantID: string, conversationIDs: seq<string>)

  datatype Codec = Codec(
    conversation: seq<Byte> -> Option<Conversation>, contact: seq<Byte> -> Option<Contact>,
    message: seq<Byte> -> Option<Message>, artifact: seq<Byte> -> Option<Artifact>)

  datatype Rules = Rules(conversation: Conversation -> bool, contact: Contact -> bool, message: Message -> bool,
                         artifact: Artifact -> bool)

  type Hash = seq<Byte> -> Digest

  datatype Manifest = Manifest(
    bundleID: string, policySHA256: Digest, checkpointRevision: string,
    conversations: Evidence, contacts: Evidence, messages: Evidence, artifacts: Evidence,
    enabledConversationCount: nat, exportedContactCount: nat, exportedMessageCount: nat, exportedArtifactCount: nat,
    artifactResolutionErrorCount: nat)

  /** The manifest, and each file as its reads delivered it. */
  datatype Bundle = Bundle(
    manifest: Manifest, conversations: seq<seq<Byte>>, contacts: seq<seq<Byte>>, messages: seq<seq<Byte>>,
    artifacts: seq<seq<Byte>>)
  {
    ghost predicate Valid() {
      IsChunking(conversations, Flatten(conversations)) && IsChunking(contacts, Flatten(contacts))
      && IsChunking(messages, Flatten(messages)) && IsChunking(artifacts, Flatten(artifacts))
    }
  }

  // ----- one record -----

  predicate Distinct<T(==)>(s: seq<T>) {
    forall i, j :: 0 <= i < j < |s| ==> s[i] != s[j]
  }

  function Members<T>(s: seq<T>): set<T> {
    set x | x in s
  }

  predicate ValidConversation(c: Conversation, rules: Rules) {
    c.conversationID != "" && Distinct(c.participants) && "" !in c.participants && rules.conversation(c)
  }

  predicate ValidContact(c: Contact, conversationIDs: set<string>, rules: Rules) {
    c.participantID != "" && Distinct(c.conversationIDs) && Members(c.conversationIDs) <= conversationIDs
      && rules.contact(c)
  }

  /** References are told apart by their joined identity and role. */
  function ReferenceKey(r: Reference): string {
    r.artifactID + ['\0'] + r.role
  }

  predicate ValidReferences(references: seq<Reference>) {
    && (forall r :: r in references ==> r.artifactID != "" && r.role != "")
    && (forall i, j :: 0 <= i < j < |references| ==> ReferenceKey(references[i]) != ReferenceKey(references[j]))
    && (references == [] || exists i :: 0 <= i < |references| && references[i].preferred && forall j ::
        0 <= j < |references| && references[j].preferred ==> j == i)
  }

  predicate ValidMessage(m: Message, conversationIDs: set<string>, contactIDs: set<string>, rules: Rules) {
    && m.canonicalID != "" && m.conversationID in conversationIDs && (m.sender.Some? ==> m.sender.value in contactIDs)
    && ValidReferences(m.references)
    && (forall r :: r in m.relationships ==> r.kind != "" && r.resolved == r.target.Some?)
    && rules.message(m)
  }

  predicate ValidArtifact(a: Artifact, conversationIDs: set<string>, rules: Rules) {
    a.artifactID != "" && a.conversationIDs != [] && Distinct(a.conversationIDs)
      && Members(a.conversationIDs) <= conversationIDs
    && rules.artifact(a)
  }

  // ----- the visitors of the four files -----

  /** Accepts records that decode and are valid; while inserting, also only those that a table takes. */
  function Visiting<T>(decode: seq<Byte> -> Option<T>, valid: T -> bool, inserting: bool, storable: T -> bool,
                       key: T -> string): Visitor {
    (before: seq<Record>, r: Record) =>
      match decode(r.data)
      case None => false
      case Some(v) =>
        valid(v) && (inserting ==> storable(v) && forall i :: 0 <= i < |before| ==> !SameKey(decode, key, before[i], v))
  }

  predicate SameKey<T>(decode: seq<Byte> -> Option<T>, key: T -> string, r: Record, v: T) {
    decode(r.data).Some? && key(decode(r.data).value) == key(v)
  }

  ghost predicate AllDecode<T(!new)>(records: seq<Record>, decode: seq<Byte> -> Option<T>) {
    forall i :: 0 <= i < |records| ==> decode(records[i].data).Some?
  }

  function Values<T(!new)>(records: seq<Record>, decode: seq<Byte> -> Option<T>): (values: seq<T>)
    requires AllDecode(records, decode)
    ensures |values| == |records| && forall i :: 0 <= i < |records| ==> decode(records[i].data) == Some(values[i])
  {
    seq(|records|, i requires 0 <= i < |records| => decode(records[i].data).value)
  }

  ghost predicate Sound<T(!new)>(records: seq<Record>, decode: seq<Byte> -> Option<T>, valid: T -> bool) {
    forall i :: 0 <= i < |records| ==>
      records[i].data != [] && |records[i].data| <= MAXIMUM_LINE_BYTES && decode(records[i].data).Some?
        && valid(decode(records[i].data).value)
  }

  /** The rows fit into a table whose key is unique. */
  ghost predicate Storable<T(!new)>(values: seq<T>, storable: T -> bool, key: T -> string) {
    (forall i :: 0 <= i < |values| ==> storable(values[i])) && forall i, j :: 0 <= i < j < |values| ==>
      key(values[i]) != key(values[j])
  }

  lemma StorableSnoc<T(!new)>(values: seq<T>, v: T, storable: T -> bool, key: T -> string)
    ensures Storable(values + [v], storable, key) <==>
            Storable(values, storable, key) && storable(v) && forall i :: 0 <= i < |values| ==> key(values[i]) != key(v)
  {
    var all := values + [v];
    if Storable(all, storable, key) {
      assert forall i :: 0 <= i < |values| ==> values[i] == all[i];
      assert storable(all[|values|]);
    }
  }

  lemma SoundSnoc<T(!new)>(records: seq<Record>, r: Record, decode: seq<Byte> -> Option<T>, valid: T -> bool)
    ensures Sound(records + [r], decode, valid) <==>
            Sound(records, decode, valid) && r.data != [] && |r.data| <= MAXIMUM_LINE_BYTES && decode(r.data).Some?
              && valid(decode(r.data).value)
  {
    var all := records + [r];
    if Sound(all, decode, valid) {
      assert forall i :: 0 <= i < |records| ==> records[i] == all[i];
      assert decode(all[|records|].data).Some?;
    }
  }

  lemma VisitMeans<T(!new)>(
    decode: seq<Byte> -> Option<T>, valid: T -> bool, inserting: bool, storable: T -> bool, key: T -> string,
    before: seq<Record>, r: Record)
    requires AllDecode(before, decode) && decode(r.data).Some?
    ensures var v := decode(r.data).value;
            Visiting(decode, valid, inserting, storable, key)(before, r) <==>
            valid(v) && (inserting ==> storable(v) && forall i :: 0 <= i < |before| ==>
                         key(Values(before, decode)[i]) != key(v))
  {
    var v, values := decode(r.data).value, Values(before, decode);
    assert forall i :: 0 <= i < |before| ==> (SameKey(decode, key, before[i], v) <==> key(values[i]) == key(v));
  }

  /**
    The visitor accepts a whole file exactly when its records are sound and, while inserting, its rows
    can be stored.
   */
  lemma {:induction false} VisitingMeans<T(!new)>(
    decode: seq<Byte> -> Option<T>, valid: T -> bool, inserting: bool, storable: T -> bool, key: T -> string,
    records: seq<Record>)
    ensures AllFit(Visiting(decode, valid, inserting, storable, key), records) <==>
            Sound(records, decode, valid) && (inserting ==> Storable(Values(records, decode), storable, key))
  {
    if records != [] {
      var last := |records| - 1;
      var front, r := records[..last], records[last];
      VisitingMeans(decode, valid, inserting, storable, key, front);
      assert front + [r] == records;
      SoundSnoc(front, r, decode, valid);
      if Sound(front, decode, valid) && decode(r.data).Some? {
        VisitMeans(decode, valid, inserting, storable, key, front, r);
        StorableSnoc(Values(front, decode), decode(r.data).value, storable, key);
        assert Values(records, decode) == Values(front, decode) + [decode(r.data).value];
      }
    }
  }
}
