/**
  Reading a conversation out of the index
  (Sources/GreenBubblesHistory/HistoryStore.swift, `messages` and
  `messagesAround`).
 */
module HistoryStore {
  import opened Wrappers
  import opened Sequences
  import opened Volume
  import opened LineScanner
  import opened HistoryTables
  import opened HistoryRecords
  import Loader = HistoryLoader
  import Source = SourceFile

  datatype Cursor = Cursor(ordinal: nat, rowID: nat)

  datatype IndexedRecord = IndexedRecord(cursor: Cursor, offset: nat, length: nat)

  /** ORDER BY ordinal DESC, rowid DESC. */
  predicate Newer(a: Cursor, b: Cursor) {
    a.ordinal > b.ordinal || (a.ordinal == b.ordinal && a.rowID > b.rowID)
  }

  /** By descending ordinal, and where that is the same by descending row. */
  ghost predicate NewestFirst(s: seq<IndexedRecord>) {
    forall i, j :: 0 <= i < j < |s| ==> Newer(s[i].cursor, s[j].cursor)
  }

  function Insert(r: IndexedRecord, s: seq<IndexedRecord>): seq<IndexedRecord> {
    if s == [] || Newer(r.cursor, s[0].cursor) then [r] + s
    else [s[0]] + Insert(r, s[1..])
  }

  /** The rows of a conversation that satisfy `where`, sorted; rows are numbered from one. */
  function Select(rows: seq<MessageRow>, conversationID: string, where: Cursor -> bool): (s: seq<IndexedRecord>)
    decreases |rows|
  {
    if rows == [] then []
    else
      var last := |rows| - 1;
      var rest := Select(rows[..last], conversationID, where);
      var cursor := Cursor(rows[last].ordinal, last + 1);
      if rows[last].conversationID == conversationID && where(cursor)
      then Insert(IndexedRecord(cursor, rows[last].offset, rows[last].length), rest)
      else rest
  }

  function Everything(): Cursor -> bool {
    (c: Cursor) => true
  }

  function OlderThan(cursor: Cursor): Cursor -> bool {
    (c: Cursor) => c.ordinal < cursor.ordinal || (c.ordinal == cursor.ordinal && c.rowID < cursor.rowID)
  }

  /** The whole conversation, newest message first. */
  function Conversation(rows: seq<MessageRow>, conversationID: string): seq<IndexedRecord> {
    Select(rows, conversationID, Everything())
  }

  function RecordOf(rows: seq<MessageRow>, rowID: nat): IndexedRecord
    requires 1 <= rowID <= |rows|
  {
    var row := rows[rowID - 1];
    IndexedRecord(Cursor(row.ordinal, rowID), row.offset, row.length)
  }

  lemma {:induction false} InsertKeeps(r: IndexedRecord, s: seq<IndexedRecord>)
    requires NewestFirst(s) && forall x :: x in s ==> x.cursor != r.cursor
    ensures NewestFirst(Insert(r, s))
    ensures forall x :: x in Insert(r, s) <==> x == r || x in s
  {
    if s != [] && !Newer(r.cursor, s[0].cursor) {
      var rest := Insert(r, s[1..]);
      InsertKeeps(r, s[1..]);
      assert s == [s[0]] + s[1..];
      assert s[0] in s;
      forall i | 0 <= i < |rest|
        ensures Newer(s[0].cursor, rest[i].cursor)
      {
        assert rest[i] in rest;
        if rest[i] != r {
          var j :| 0 <= j < |s[1..]| && s[1..][j] == rest[i];
          assert s[j + 1] == rest[i];
        }
      }
      forall x
        ensures x in Insert(r, s) <==> x == r || x in s
      {
        assert x in [s[0]] + rest <==> x == s[0] || x in rest;
      }
    }
  }

  /** A selection is sorted, and holds exactly the matching rows. */
  lemma {:induction false} SelectMeans(rows: seq<MessageRow>, conversationID: string, where: Cursor -> bool)
    ensures NewestFirst(Select(rows, conversationID, where))
    ensures forall x :: x in Select(rows, conversationID, where) <==>
              1 <= x.cursor.rowID <= |rows| && x == RecordOf(rows, x.cursor.rowID)
              && rows[x.cursor.rowID - 1].conversationID == conversationID && where(x.cursor)
    decreases |rows|
  {
    if rows != [] {
      var last := |rows| - 1;
      SelectMeans(rows[..last], conversationID, where);
      var rest, r := Select(rows[..last], conversationID, where), RecordOf(rows, last + 1);
      assert forall k :: 1 <= k <= last ==> RecordOf(rows[..last], k) == RecordOf(rows, k);
      InsertKeeps(r, rest);
    }
  }

  lemma TailHolds(a: seq<IndexedRecord>, x: IndexedRecord)
    requires NewestFirst(a) && a != []
    ensures x in a[1..] <==> x in a && x != a[0]
  {
    assert a == [a[0]] + a[1..];
    if k :| 0 <= k < |a[1..]| && a[1..][k] == x {
      assert a[k + 1] == x && Newer(a[0].cursor, a[k + 1].cursor);
    }
  }

  lemma {:induction false} SortedIsUnique(a: seq<IndexedRecord>, b: seq<IndexedRecord>)
    requires NewestFirst(a) && NewestFirst(b) && forall x :: x in a <==> x in b
    ensures a == b
  {
    if a != [] && b != [] {
      assert a[0] in b && b[0] in a;
      var i :| 0 <= i < |a| && a[i] == b[0];
      var j :| 0 <= j < |b| && b[j] == a[0];
      assert a[0] == b[0];
      forall x
        ensures x in a[1..] <==> x in b[1..]
      {
        TailHolds(a, x);
        TailHolds(b, x);
      }
      SortedIsUnique(a[1..], b[1..]);
    } else if a != [] {
      SomeMember(a, b);
    } else if b != [] {
      SomeMember(b, a);
    }
  }

  lemma SomeMember<T>(a: seq<T>, b: seq<T>)
    requires a != [] && forall x :: x in a <==> x in b
    ensures b != []
  {
    assert a[0] in a;
  }

  /** What is older than the message at place `k` is what follows it. */
  lemma OlderIsRest(rows: seq<MessageRow>, conversationID: string, k: nat)
    requires k < |Conversation(rows, conversationID)|
    ensures var all := Conversation(rows, conversationID);
            Select(rows, conversationID, OlderThan(all[k].cursor)) == all[k + 1..]
  {
    var all := Conversation(rows, conversationID);
    var older := Select(rows, conversationID, OlderThan(all[k].cursor));
    SelectMeans(rows, conversationID, Everything());
    SelectMeans(rows, conversationID, OlderThan(all[k].cursor));
    forall x
      ensures x in older <==> x in all[k + 1..]
    {
      assert x in all ==> exists i :: 0 <= i < |all| && all[i] == x;
      if x in older {
        var i :| 0 <= i < |all| && all[i] == x;
        assert i > k;
        assert all[k + 1..][i - (k + 1)] == x;
      }
      if x in all[k + 1..] {
        var i :| 0 <= i < |all[k + 1..]| && all[k + 1..][i] == x;
        assert all[k + 1 + i] == x;
        assert Newer(all[k].cursor, x.cursor);
      }
    }
    SortedIsUnique(older, all[k + 1..]);
  }

  // ----- pages -----

  datatype Page = Page(records: seq<IndexedRecord>, nextCursor: Option<Cursor>)

  function ClampLimit(requested: int): nat {
    if requested < 1 then 1 else if requested > 250 then 250 else requested
  }

  function Limit(s: seq<IndexedRecord>, n: nat): seq<IndexedRecord> {
    if |s| <= n then s else s[..n]
  }

  /** The first `limit` records, and a cursor at the last of them if there are more. */
  ghost predicate IsPage(page: Page, found: seq<IndexedRecord>, limit: nat)
    requires limit > 0
  {
    page == if |found| > limit then Page(found[..limit], Some(found[limit - 1].cursor)) else Page(found, None)
  }

  /** The place is that of an earlier row than `cursor`, or there is no cursor. */
  ghost predicate ComesAfter(place: Cursor, cursor: Option<Cursor>) {
    cursor.Some? ==>
      place.ordinal < cursor.value.ordinal
        || (place.ordinal == cursor.value.ordinal && place.rowID < cursor.value.rowID)
  }

  /** A row of the conversation that comes after the cursor. */
  ghost predicate Wanted(rows: seq<MessageRow>, conversationID: string, cursor: Option<Cursor>, x: IndexedRecord) {
    1 <= x.cursor.rowID <= |rows| && ComesAfter(x.cursor, cursor)
    && var row := rows[x.cursor.rowID - 1];
       row.conversationID == conversationID && x.cursor.ordinal == row.ordinal && x.offset == row.offset
       && x.length == row.length
  }

  /** At most `limit` wanted rows, newest first; when rows are left over, they come after all of these. */
  ghost predicate ShowsPage(page: Page, rows: seq<MessageRow>, conversationID: string, cursor: Option<Cursor>,
                            limit: nat) {
    var records := page.records;
    && |records| <= limit && NewestFirst(records)
    && (forall x :: x in records ==> Wanted(rows, conversationID, cursor, x))
    && (forall x :: Wanted(rows, conversationID, cursor, x) && x !in records ==>
          |records| == limit && page.nextCursor.Some? && ComesAfter(x.cursor, page.nextCursor))
    && (page.nextCursor.Some? ==>
          records != [] && page.nextCursor.value == records[|records| - 1].cursor
          && exists x :: Wanted(rows, conversationID, cursor, x) && x !in records)
  }

  function After(cursor: Option<Cursor>): Cursor -> bool {
    if cursor.Some? then OlderThan(cursor.value) else Everything()
  }

  lemma RestFollows(found: seq<IndexedRecord>, limit: nat)
    requires NewestFirst(found) && 0 < limit < |found|
    ensures forall x :: x in found && x !in found[..limit] ==> ComesAfter(x.cursor, Some(found[limit - 1].cursor))
  {
    forall x | x in found && x !in found[..limit]
      ensures ComesAfter(x.cursor, Some(found[limit - 1].cursor))
    {
      assert found == found[..limit] + found[limit..];
      var i :| 0 <= i < |found[limit..]| && found[limit..][i] == x;
      assert Newer(found[limit - 1].cursor, found[limit + i].cursor);
    }
  }

  lemma FirstLeavesOut(found: seq<IndexedRecord>, limit: nat)
    requires NewestFirst(found) && limit < |found|
    ensures found[limit] in found && found[limit] !in found[..limit]
  {
    if i :| 0 <= i < limit && found[..limit][i] == found[limit] {
      assert Newer(found[i].cursor, found[limit].cursor);
    }
  }

  lemma PageShows(page: Page, rows: seq<MessageRow>, conversationID: string, cursor: Option<Cursor>, limit: nat)
    requires limit > 0 && IsPage(page, Select(rows, conversationID, After(cursor)), limit)
    ensures ShowsPage(page, rows, conversationID, cursor, limit)
  {
    var found := Select(rows, conversationID, After(cursor));
    SelectMeans(rows, conversationID, After(cursor));
    forall x
      ensures x in found <==> Wanted(rows, conversationID, cursor, x)
    {
    }
    if |found| > limit {
      RestFollows(found, limit);
      FirstLeavesOut(found, limit);
      assert Wanted(rows, conversationID, cursor, found[limit]);
    }
  }

  /** One page: asks for one record more than it gives, to see whether a next page exists. */
  method Messages(rows: seq<MessageRow>, conversationID: string, cursor: Option<Cursor>, requestedLimit: int)
    returns (page: Page)
    ensures 1 <= requestedLimit <= 250 ==> ShowsPage(page, rows, conversationID, cursor, requestedLimit)
    ensures requestedLimit < 1 ==> ShowsPage(page, rows, conversationID, cursor, 1)
    ensures requestedLimit > 250 ==> ShowsPage(page, rows, conversationID, cursor, 250)
    ensures IsPage(page, Select(rows, conversationID, After(cursor)), ClampLimit(requestedLimit))
  {
    var limit := ClampLimit(requestedLimit);
    var records;
    if cursor.Some? {
      records := Limit(Select(rows, conversationID, OlderThan(cursor.value)), limit + 1);
    } else {
      records := Limit(Select(rows, conversationID, Everything()), limit + 1);
    }
    var pageRecords := Limit(records, limit);
    page := Page(pageRecords, if |records| > limit then Some(pageRecords[|pageRecords| - 1].cursor) else None);
    PageShows(page, rows, conversationID, cursor, limit);
  }

  /** A page of what is left brings what was seen closer to everything. */
  ghost predicate SeenUpTo(all: seq<IndexedRecord>, seen: seq<IndexedRecord>, next: Option<Cursor>) {
    |seen| <= |all| && seen == all[..|seen|]
    && (if next.Some? then 0 < |seen| < |all| && next.value == all[|seen| - 1].cursor else seen == all)
  }

  lemma NextPage(all: seq<IndexedRecord>, seen: seq<IndexedRecord>, page: Page, limit: nat)
    requires |seen| <= |all| && seen == all[..|seen|] && limit > 0 && IsPage(page, all[|seen|..], limit)
    ensures SeenUpTo(all, seen + page.records, page.nextCursor)
    ensures |seen| < |all| ==> page.records != []
  {
    var k := |seen| + |page.records|;
    assert all[..k] == all[..|seen|] + all[|seen|..k] && all[|seen|..][..|page.records|] == all[|seen|..k];
  }

  lemma CursorPage(rows: seq<MessageRow>, conversationID: string, seen: seq<IndexedRecord>, cursor: Cursor, page: Page,
                   limit: nat)
    requires SeenUpTo(Conversation(rows, conversationID), seen, Some(cursor)) && limit > 0
    requires IsPage(page, Select(rows, conversationID, OlderThan(cursor)), limit)
    ensures SeenUpTo(Conversation(rows, conversationID), seen + page.records, page.nextCursor)
    ensures page.records != []
  {
    OlderIsRest(rows, conversationID, |seen| - 1);
    NextPage(Conversation(rows, conversationID), seen, page, limit);
  }

  /** Following the cursors, with any limits, visits the whole conversation in order, each message once, and ends. */
  method FollowPages(rows: seq<MessageRow>, conversationID: string) returns (seen: seq<IndexedRecord>)
    ensures seen == Conversation(rows, conversationID)
  {
    ghost var all := Conversation(rows, conversationID);
    var limit: int := *;
    var page := Messages(rows, conversationID, None, limit);
    assert all[0..] == all;
    NextPage(all, [], page, ClampLimit(limit));
    seen := [] + page.records;
    while page.nextCursor.Some?
      invariant SeenUpTo(all, seen, page.nextCursor)
      decreases |all| - |seen|
    {
      ghost var cursor := page.nextCursor.value;
      limit := *;
      page := Messages(rows, conversationID, page.nextCursor, limit);
      CursorPage(rows, conversationID, seen, cursor, page, ClampLimit(limit));
      seen := seen + page.records;
    }
  }

  /** The conversation in order: strictly newest first, and exactly its rows. */
  lemma ConversationMeans(rows: seq<MessageRow>, conversationID: string)
    ensures NewestFirst(Conversation(rows, conversationID))
    ensures forall x :: x in Conversation(rows, conversationID) <==>
              1 <= x.cursor.rowID <= |rows| && x == RecordOf(rows, x.cursor.rowID)
                && rows[x.cursor.rowID - 1].conversationID == conversationID
  {
    SelectMeans(rows, conversationID, Everything());
  }

  // ----- around a message -----

  function Distance(a: nat, b: nat): nat {
    if a < b then b - a else a - b
  }

  /** ORDER BY ABS(ordinal - ?) ASC, ordinal DESC; ties stay open. */
  predicate Closer(x: IndexedRecord, y: IndexedRecord, ordinal: nat) {
    var dx, dy := Distance(x.cursor.ordinal, ordinal), Distance(y.cursor.ordinal, ordinal);
    dx < dy || (dx == dy && x.cursor.ordinal > y.cursor.ordinal)
  }

  /** An answer to the query: the conversation's rows, none before a closer one. */
  ghost predicate ClosestFirst(answer: seq<IndexedRecord>, all: seq<IndexedRecord>, ordinal: nat) {
    multiset(answer) == multiset(all) && forall i, j :: 0 <= i < j < |answer| ==> !Closer(answer[j], answer[i], ordinal)
  }

  function ClampRadius(requested: int): nat {
    if requested < 1 then 1 else if requested > 100 then 100 else requested
  }

  /** The chosen rows leave no gap: what lies strictly between two of them was chosen too. */
  lemma ChosenHaveNoGap(answer: seq<IndexedRecord>, all: seq<IndexedRecord>, ordinal: nat, n: nat,
                        a: IndexedRecord, b: IndexedRecord, c: IndexedRecord)
    requires ClosestFirst(answer, all, ordinal) && a in Limit(answer, n) && c in Limit(answer, n) && b in all
    requires a.cursor.ordinal < b.cursor.ordinal < c.cursor.ordinal
    ensures b in Limit(answer, n)
  {
    assert b in multiset(answer);
    var j :| 0 <= j < |answer| && answer[j] == b;
    var far := if b.cursor.ordinal < ordinal then a else c;
    var i :| 0 <= i < |Limit(answer, n)| && Limit(answer, n)[i] == far;
    assert Closer(b, far, ordinal);
    assert j < i;
    assert Limit(answer, n)[j] == b;
  }

  lemma CloserIsSmallerRank(x: IndexedRecord, y: IndexedRecord, ordinal: nat)
    ensures Closer(x, y, ordinal) <==> Rank(ordinal)(x) < Rank(ordinal)(y)
  {
  }

  function Rank(ordinal: nat): IndexedRecord -> int {
    (x: IndexedRecord) => 2 * Distance(x.cursor.ordinal, ordinal) + if x.cursor.ordinal < ordinal then 1 else 0
  }

  function SameOrdinal(ordinal: nat): IndexedRecord -> nat {
    (x: IndexedRecord) => if x.cursor.ordinal == ordinal then 1 else 0
  }

  /** How many messages of the conversation share the ordinal. */
  function Sharing(all: seq<IndexedRecord>, ordinal: nat): nat {
    SumBy(all, SameOrdinal(ordinal))
  }

  lemma {:induction false} AllSharing(s: seq<IndexedRecord>, ordinal: nat)
    requires forall x :: x in s ==> x.cursor.ordinal == ordinal
    ensures Sharing(s, ordinal) == |s|
  {
    if s != [] {
      assert s[0] in s;
      AllSharing(s[1..], ordinal);
    }
  }

  lemma {:induction false} NoneSharing(s: seq<IndexedRecord>, ordinal: nat)
    requires forall x :: x in s ==> x.cursor.ordinal != ordinal
    ensures Sharing(s, ordinal) == 0
  {
    if s != [] {
      assert s[0] in s;
      NoneSharing(s[1..], ordinal);
    }
  }

  lemma SharingBefore(answer: seq<IndexedRecord>, all: seq<IndexedRecord>, ordinal: nat, j: nat)
    requires ClosestFirst(answer, all, ordinal) && j < |answer| && answer[j].cursor.ordinal == ordinal
    ensures Sharing(answer[..j], ordinal) == j
  {
    forall x | x in answer[..j]
      ensures x.cursor.ordinal == ordinal
    {
      var i :| 0 <= i < j && answer[i] == x;
      assert !Closer(answer[j], answer[i], ordinal);
    }
    AllSharing(answer[..j], ordinal);
  }

  lemma SharingAfter(answer: seq<IndexedRecord>, all: seq<IndexedRecord>, ordinal: nat, j: nat)
    requires ClosestFirst(answer, all, ordinal) && j < |answer| && answer[j].cursor.ordinal != ordinal
    ensures Sharing(answer[j..], ordinal) == 0
  {
    forall x | x in answer[j..]
      ensures x.cursor.ordinal != ordinal
    {
      var i :| 0 <= i < |answer[j..]| && answer[j..][i] == x;
      assert i > 0 ==> !Closer(answer[j + i], answer[j], ordinal);
    }
    NoneSharing(answer[j..], ordinal);
  }

  /** The messages that share the target's ordinal come first in every answer. */
  lemma SharingComeFirst(answer: seq<IndexedRecord>, all: seq<IndexedRecord>, ordinal: nat, j: nat)
    requires ClosestFirst(answer, all, ordinal) && j < |answer|
    ensures answer[j].cursor.ordinal == ordinal <==> j < Sharing(all, ordinal)
  {
    SumByPermutation(answer, all, SameOrdinal(ordinal));
    assert answer == answer[..j] + answer[j..];
    SumByJoin(answer[..j], answer[j..], SameOrdinal(ordinal));
    if answer[j].cursor.ordinal == ordinal {
      SharingBefore(answer, all, ordinal, j);
      assert Sharing(answer[j..], ordinal) >= 1;
    } else {
      SharingAfter(answer, all, ordinal, j);
      SharedAtMostLength(answer[..j], ordinal);
    }
  }

  lemma {:induction false} SharedAtMostLength(s: seq<IndexedRecord>, ordinal: nat)
    ensures Sharing(s, ordinal) <= |s|
  {
    if s != [] {
      SharedAtMostLength(s[1..], ordinal);
    }
  }

  lemma SomeAnswer(all: seq<IndexedRecord>, ordinal: nat) returns (answer: seq<IndexedRecord>)
    ensures ClosestFirst(answer, all, ordinal)
  {
    answer := SortByKey(all, Rank(ordinal));
    SortIsAscending(all, Rank(ordinal));
    forall i, j | 0 <= i < j < |answer|
      ensures !Closer(answer[j], answer[i], ordinal)
    {
      CloserIsSmallerRank(answer[j], answer[i], ordinal);
    }
  }

  /** Two messages of one ordinal may change places. */
  lemma SwapTies(answer: seq<IndexedRecord>, all: seq<IndexedRecord>, ordinal: nat, i: nat, j: nat)
    returns (other: seq<IndexedRecord>)
    requires ClosestFirst(answer, all, ordinal) && i < j < |answer|
    requires answer[i].cursor.ordinal == answer[j].cursor.ordinal
    ensures ClosestFirst(other, all, ordinal) && other == answer[i := answer[j]][j := answer[i]]
  {
    other := answer[i := answer[j]][j := answer[i]];
    assert multiset(other) == multiset(answer);
    forall k, l | 0 <= k < l < |other|
      ensures !Closer(other[l], other[k], ordinal)
    {
      assert !Closer(answer[l], answer[k], ordinal);
    }
  }

  /** However ties fall, the target is among the chosen, exactly when no more messages than that share its ordinal. */
  lemma TargetIsChosen(all: seq<IndexedRecord>, target: IndexedRecord, n: nat)
    requires NewestFirst(all) && target in all && n > 0
    ensures (forall answer :: ClosestFirst(answer, all, target.cursor.ordinal) ==> target in Limit(answer, n))
       <==> Sharing(all, target.cursor.ordinal) <= n
  {
    var ordinal := target.cursor.ordinal;
    if Sharing(all, ordinal) <= n {
      forall answer | ClosestFirst(answer, all, ordinal)
        ensures target in Limit(answer, n)
      {
        assert target in multiset(answer);
        var j :| 0 <= j < |answer| && answer[j] == target;
        SharingComeFirst(answer, all, ordinal, j);
        assert Limit(answer, n)[j] == target;
      }
    } else {
      var answer := AnswerWithout(all, target, n);
    }
  }

  /**
    It can happen: four messages of one ordinal, the smallest radius, and an
    answer of the query that leaves the opened message out.
   */
  lemma TargetCanBeMissing(ordinal: nat)
    returns (rows: seq<MessageRow>, target: IndexedRecord, answer: seq<IndexedRecord>)
    ensures forall i, j :: 0 <= i < j < |rows| ==> rows[i].canonicalID != rows[j].canonicalID
    ensures target in Conversation(rows, "chat") && target.cursor.ordinal == ordinal
    ensures ClosestFirst(answer, Conversation(rows, "chat"), ordinal)
    ensures target !in Limit(answer, 2 * ClampRadius(1) + 1)
  {
    rows := [MessageRow("1", "chat", ordinal, None, 0, 1), MessageRow("2", "chat", ordinal, None, 2, 1),
             MessageRow("3", "chat", ordinal, None, 4, 1), MessageRow("4", "chat", ordinal, None, 6, 1)];
    target, answer := FourthIsMissing(rows, "chat", ordinal);
  }

  lemma FourthIsMissing(rows: seq<MessageRow>, conversationID: string, ordinal: nat)
    returns (target: IndexedRecord, answer: seq<IndexedRecord>)
    requires |rows| == 4 && forall row :: row in rows ==> row.conversationID == conversationID && row.ordinal == ordinal
    ensures target in Conversation(rows, conversationID) && target.cursor.ordinal == ordinal
    ensures ClosestFirst(answer, Conversation(rows, conversationID), ordinal)
    ensures target !in Limit(answer, 3)
  {
    var all := Conversation(rows, conversationID);
    ConversationMeans(rows, conversationID);
    target := RecordOf(rows, 4);
    FourAtLeast(all, RecordOf(rows, 1), RecordOf(rows, 2), RecordOf(rows, 3), target);
    AllSharing(all, ordinal);
    answer := AnswerWithout(all, target, 3);
  }

  lemma FourAtLeast(all: seq<IndexedRecord>, w: IndexedRecord, x: IndexedRecord, y: IndexedRecord, z: IndexedRecord)
    requires w in all && x in all && y in all && z in all && w != x && w != y && w != z && x != y && x != z && y != z
    ensures |all| >= 4
  {
    var i :| 0 <= i < |all| && all[i] == w;
    var j :| 0 <= j < |all| && all[j] == x;
    var k :| 0 <= k < |all| && all[k] == y;
    var l :| 0 <= l < |all| && all[l] == z;
  }

  lemma NotElsewhere(answer: seq<IndexedRecord>, all: seq<IndexedRecord>, n: nat)
    requires NewestFirst(all) && multiset(answer) == multiset(all) && n < |answer|
    ensures answer[n] !in Limit(answer, n)
  {
    if answer[n] in Limit(answer, n) {
      var i :| 0 <= i < n && answer[i] == answer[n];
      TwiceInMultiset(answer, i, n);
      assert answer[n] in multiset(all);
      var k :| 0 <= k < |all| && all[k] == answer[n];
      OnceInMultiset(all, k, (x: IndexedRecord) => x.cursor);
    }
  }

  lemma AnswerWithout(all: seq<IndexedRecord>, target: IndexedRecord, n: nat) returns (answer: seq<IndexedRecord>)
    requires NewestFirst(all) && target in all && n > 0 && Sharing(all, target.cursor.ordinal) > n
    ensures ClosestFirst(answer, all, target.cursor.ordinal) && target !in Limit(answer, n)
  {
    var ordinal := target.cursor.ordinal;
    answer := SomeAnswer(all, ordinal);
    SharedAtMostLength(all, ordinal);
    assert |multiset(answer)| == |answer| && |multiset(all)| == |all|;
    SharingComeFirst(answer, all, ordinal, n);
    if target in Limit(answer, n) {
      var i :| 0 <= i < n && answer[i] == target;
      answer := SwapTies(answer, all, ordinal, i, n);
      NotElsewhere(answer, all, n);
    }
  }

  // ----- around a message, when ordinals are distinct -----

  ghost predicate DistinctOrdinals(all: seq<IndexedRecord>) {
    forall i, j :: 0 <= i < j < |all| ==> all[i].cursor.ordinal != all[j].cursor.ordinal
  }

  ghost predicate IsSlice(records: seq<IndexedRecord>, all: seq<IndexedRecord>) {
    exists lo, hi :: 0 <= lo <= hi <= |all| && records == all[lo..hi]
  }

  lemma {:induction false} DistinctShareOne(all: seq<IndexedRecord>, ordinal: nat)
    requires DistinctOrdinals(all)
    ensures Sharing(all, ordinal) <= 1
  {
    if all != [] {
      if all[0].cursor.ordinal == ordinal {
        NoneSharing(all[1..], ordinal);
      } else {
        DistinctShareOne(all[1..], ordinal);
      }
    }
  }

  lemma OrderedPlaces(all: seq<IndexedRecord>, i: nat, j: nat)
    requires NewestFirst(all) && i < |all| && j < |all| && (all[i] == all[j] || Newer(all[i].cursor, all[j].cursor))
    ensures i <= j
  {
  }

  /**
    With distinct ordinals the messages around a message are a stretch of the
    conversation without gaps, and the message is one of them.
   */
  lemma AroundIsSlice(all: seq<IndexedRecord>, answer: seq<IndexedRecord>, target: IndexedRecord, n: nat,
                      records: seq<IndexedRecord>)
    requires NewestFirst(all) && DistinctOrdinals(all) && target in all && n > 0
    requires ClosestFirst(answer, all, target.cursor.ordinal) && SortedFrom(records, Limit(answer, n))
    ensures target in records && IsSlice(records, all)
  {
    DistinctShareOne(all, target.cursor.ordinal);
    TargetIsChosen(all, target, n);
    var newest, oldest := records[0], records[|records| - 1];
    ChosenAreThere(all, answer, n, newest);
    ChosenAreThere(all, answer, n, oldest);
    var lo :| 0 <= lo < |all| && all[lo] == newest;
    var last :| 0 <= last < |all| && all[last] == oldest;
    OrderedPlaces(all, lo, last);
    var slice := all[lo..last + 1];
    forall x
      ensures x in records <==> x in slice
    {
      if x in records {
        ChosenIsBetween(all, answer, n, records, lo, last, x);
      }
      if x in slice {
        BetweenIsChosen(all, answer, target.cursor.ordinal, n, records, lo, last, x);
      }
    }
    SortedIsUnique(records, slice);
  }

  lemma ChosenAreThere(all: seq<IndexedRecord>, answer: seq<IndexedRecord>, n: nat, x: IndexedRecord)
    requires multiset(answer) == multiset(all) && x in Limit(answer, n)
    ensures x in all
  {
    assert x in answer && x in multiset(answer);
  }

  lemma ChosenIsBetween(all: seq<IndexedRecord>, answer: seq<IndexedRecord>, n: nat, records: seq<IndexedRecord>,
                        lo: nat, last: nat, x: IndexedRecord)
    requires NewestFirst(all) && multiset(answer) == multiset(all) && SortedFrom(records, Limit(answer, n))
      && x in records
    requires lo <= last < |all| && all[lo] == records[0] && all[last] == records[|records| - 1]
    ensures x in all[lo..last + 1]
  {
    ChosenAreThere(all, answer, n, x);
    var k :| 0 <= k < |all| && all[k] == x;
    var i :| 0 <= i < |records| && records[i] == x;
    assert i > 0 ==> Newer(records[0].cursor, x.cursor);
    assert i < |records| - 1 ==> Newer(x.cursor, records[|records| - 1].cursor);
    OrderedPlaces(all, lo, k);
    OrderedPlaces(all, k, last);
    assert all[lo..last + 1][k - lo] == x;
  }

  lemma BetweenIsChosen(all: seq<IndexedRecord>, answer: seq<IndexedRecord>, ordinal: nat, n: nat,
                        records: seq<IndexedRecord>,
                        lo: nat, last: nat, x: IndexedRecord)
    requires NewestFirst(all) && DistinctOrdinals(all) && ClosestFirst(answer, all, ordinal)
      && SortedFrom(records, Limit(answer, n))
    requires records != [] && lo <= last < |all| && all[lo] == records[0] && all[last] == records[|records| - 1]
    requires x in all[lo..last + 1]
    ensures x in records
  {
    var i :| 0 <= i < |all[lo..last + 1]| && all[lo..last + 1][i] == x;
    var k := lo + i;
    assert all[k] == x && records[0] in records && records[|records| - 1] in records;
    if lo < k < last {
      assert all[lo].cursor.ordinal > x.cursor.ordinal > all[last].cursor.ordinal;
      ChosenHaveNoGap(answer, all, ordinal, n, all[last], x, all[lo]);
    }
  }

  // ----- the methods -----

  ghost predicate SortedFrom(records: seq<IndexedRecord>, chosen: seq<IndexedRecord>) {
    NewestFirst(records) && forall x :: x in records <==> x in chosen
  }

  ghost predicate DistinctCursors(chosen: seq<IndexedRecord>) {
    forall i, j :: 0 <= i < j < |chosen| ==> chosen[i].cursor != chosen[j].cursor
  }

  lemma InsertNext(chosen: seq<IndexedRecord>, i: nat, records: seq<IndexedRecord>)
    requires i < |chosen| && DistinctCursors(chosen) && SortedFrom(records, chosen[..i])
    ensures SortedFrom(Insert(chosen[i], records), chosen[..i + 1])
  {
    InsertKeeps(chosen[i], records);
    assert chosen[..i + 1] == chosen[..i] + [chosen[i]];
  }

  method SortNewestFirst(chosen: seq<IndexedRecord>) returns (records: seq<IndexedRecord>)
    requires DistinctCursors(chosen)
    ensures SortedFrom(records, chosen)
  {
    records := [];
    for i := 0 to |chosen|
      invariant SortedFrom(records, chosen[..i])
    {
      InsertNext(chosen, i, records);
      records := Insert(chosen[i], records);
    }
    assert chosen[..|chosen|] == chosen;
  }

  /** Exactly the first `n` of the answer, if it has that many. */
  ghost predicate HoldsFirst(records: seq<IndexedRecord>, answer: seq<IndexedRecord>, n: nat) {
    forall x :: x in records <==> exists i :: 0 <= i < n && i < |answer| && answer[i] == x
  }

  /** As many on either side as were asked for, but at least one and at most a hundred. */
  ghost predicate HoldsClosest(records: seq<IndexedRecord>, answer: seq<IndexedRecord>, requestedRadius: int) {
    && (requestedRadius < 1 ==> HoldsFirst(records, answer, 1 + 1 + 1))
    && (1 <= requestedRadius <= 100 ==> HoldsFirst(records, answer, requestedRadius + 1 + requestedRadius))
    && (requestedRadius > 100 ==> HoldsFirst(records, answer, 100 + 1 + 100))
  }

  lemma FirstAreHeld(records: seq<IndexedRecord>, answer: seq<IndexedRecord>, requestedRadius: int)
    requires SortedFrom(records, Limit(answer, 2 * ClampRadius(requestedRadius) + 1))
    ensures NewestFirst(records) && HoldsClosest(records, answer, requestedRadius)
  {
    var n := 2 * ClampRadius(requestedRadius) + 1;
    forall x
      ensures x in Limit(answer, n) <==> exists i :: 0 <= i < n && i < |answer| && answer[i] == x
    {
    }
    assert HoldsFirst(records, answer, n);
  }

  /** With distinct ordinals, a stretch of the conversation that holds the message of the row. */
  ghost predicate StretchAround(rows: seq<MessageRow>, t: nat, records: seq<IndexedRecord>)
    requires t < |rows|
  {
    var all := Conversation(rows, rows[t].conversationID);
    DistinctOrdinals(all) ==> RecordOf(rows, t + 1) in records && IsSlice(records, all)
  }

  /** The messages around a message: the closest ones, sorted newest first. */
  method MessagesAround(rows: seq<MessageRow>, canonicalID: string, requestedRadius: int, answer: seq<IndexedRecord>)
    returns (records: seq<IndexedRecord>)
    requires forall t :: 0 <= t < |rows| && rows[t].canonicalID == canonicalID ==>
               ClosestFirst(answer, Conversation(rows, rows[t].conversationID), rows[t].ordinal)
    ensures (forall row :: row in rows ==> row.canonicalID != canonicalID) ==> records == []
    ensures (exists row :: row in rows && row.canonicalID == canonicalID) ==>
              NewestFirst(records) && HoldsClosest(records, answer, requestedRadius)
    ensures (exists row :: row in rows && row.canonicalID == canonicalID) ==>
              exists t :: 0 <= t < |rows| && rows[t].canonicalID == canonicalID && StretchAround(rows, t, records)
  {
    var t := 0;
    while t < |rows| && rows[t].canonicalID != canonicalID
      invariant 0 <= t <= |rows| && forall i :: 0 <= i < t ==> rows[i].canonicalID != canonicalID
    {
      t := t + 1;
    }
    if t == |rows| {
      return [];
    }
    var chosen := Limit(answer, 2 * ClampRadius(requestedRadius) + 1);
    ChosenAreDistinct(rows, rows[t].conversationID, answer, |chosen|);
    records := SortNewestFirst(chosen);
    AroundShows(rows, t, answer, requestedRadius, records);
  }

  lemma AroundShows(rows: seq<MessageRow>, t: nat, answer: seq<IndexedRecord>, requestedRadius: int,
                    records: seq<IndexedRecord>)
    requires t < |rows| && ClosestFirst(answer, Conversation(rows, rows[t].conversationID), rows[t].ordinal)
    requires SortedFrom(records, Limit(answer, 2 * ClampRadius(requestedRadius) + 1))
    ensures NewestFirst(records) && HoldsClosest(records, answer, requestedRadius) && StretchAround(rows, t, records)
  {
    FirstAreHeld(records, answer, requestedRadius);
    ConversationMeans(rows, rows[t].conversationID);
    if DistinctOrdinals(Conversation(rows, rows[t].conversationID)) {
      AroundIsSlice(Conversation(rows, rows[t].conversationID), answer, RecordOf(rows, t + 1),
                    2 * ClampRadius(requestedRadius) + 1, records);
    }
  }

  lemma ChosenAreDistinct(rows: seq<MessageRow>, conversationID: string, answer: seq<IndexedRecord>, n: nat)
    requires multiset(answer) == multiset(Conversation(rows, conversationID)) && n <= |answer|
    ensures DistinctCursors(answer[..n])
  {
    var all := Conversation(rows, conversationID);
    ConversationMeans(rows, conversationID);
    forall i, j | 0 <= i < j < n
      ensures answer[i].cursor != answer[j].cursor
    {
      NotElsewhere(answer, all, j);
      assert answer[i] in Limit(answer, j);
      assert answer[i] in multiset(all) && answer[j] in multiset(all);
      CursorsDiffer(all, answer[i], answer[j]);
    }
  }

  lemma CursorsDiffer(all: seq<IndexedRecord>, x: IndexedRecord, y: IndexedRecord)
    requires NewestFirst(all) && x in all && y in all && x != y
    ensures x.cursor != y.cursor
  {
    var k :| 0 <= k < |all| && all[k] == x;
    var l :| 0 <= l < |all| && all[l] == y;
  }

  // ----- reading the messages themselves -----

  /** The values are what the records' ranges of the content decode to. */
  ghost predicate DecodedFrom(content: seq<Byte>, codec: Codec, records: seq<IndexedRecord>, values: seq<Message>) {
    |values| == |records| && forall i :: 0 <= i < |records| ==>
      records[i].offset + records[i].length <= |content|
      && codec.message(content[records[i].offset..records[i].offset + records[i].length]) == Some(values[i])
  }

  ghost predicate DecodedFromRetained(trace: Trace, upTo: nat, source: Source.Source, codec: Codec,
                                      records: seq<IndexedRecord>, values: seq<Message>) {
    forall at: nat, content :: at <= upTo && Source.Retains(trace, at, source, content) ==>
      DecodedFrom(content, codec, records, values)
  }

  datatype StoreError =
    | Unopened(cause: Source.SourceError)
    | Unloadable(reason: Loader.LoadError)
    | Unreadable(error: Source.SourceError)
    | Undecodable

  /** Throughout (a, b] the file behind the descriptor is the one that was validated, and can be read. */
  ghost predicate Unspoilt(trace: Trace, a: nat, b: nat, source: Source.Source) {
    exists file: File :: file.fingerprint == source.identity && Source.ReadsOn(trace, a, b, source.node, file)
  }

  lemma UnspoiltWithin(trace: Trace, a: nat, b: nat, c: nat, d: nat, source: Source.Source)
    requires a <= b && c <= d && Unspoilt(trace, a, d, source)
    ensures Unspoilt(trace, b, c, source)
  {
    var file: File :| file.fingerprint == source.identity && Source.ReadsOn(trace, a, d, source.node, file);
    assert Source.ReadsOn(trace, b, c, source.node, file);
  }

  /** The record's range is one that can be read, and what was retained there decodes. */
  ghost predicate Decodable(trace: Trace, upTo: nat, source: Source.Source, codec: Codec, r: IndexedRecord) {
    Source.ValidRange(source, r.offset, r.length)
    && exists at: nat, content :: at <= upTo && Source.Retains(trace, at, source, content)
         && r.offset + r.length <= |content| && codec.message(content[r.offset..r.offset + r.length]).Some?
  }

  method DecodeMessages(machine: Machine, source: Source.Source, codec: Codec, records: seq<IndexedRecord>)
    returns (r: Result<seq<Message>, StoreError>)
    requires Honest(machine.trace)
    modifies machine`now
    ensures old(machine.now) <= machine.now
    ensures r.Err? && Unspoilt(machine.trace, old(machine.now), machine.now, source) ==>
      exists x :: x in records && !Decodable(machine.trace, old(machine.now), source, codec, x)
    ensures r.Ok? ==> DecodedFromRetained(machine.trace, old(machine.now), source, codec, records, r.value)
  {
    var values: seq<Message> := [];
    ghost var start := machine.now;
    for i := 0 to |records|
      invariant start <= machine.now
      invariant DecodedFromRetained(machine.trace, start, source, codec, records[..i], values)
    {
      ghost var before := machine.now;
      assert records[i] in records;
      var data := Source.ReadRange(machine, source, records[i].offset, records[i].length);
      if data.Err? {
        if Unspoilt(machine.trace, start, machine.now, source) {
          UnspoiltWithin(machine.trace, start, before, machine.now, machine.now, source);
        }
        return Err(Unreadable(data.error));
      }
      var value := codec.message(data.value);
      if value.None? {
        return Err(Undecodable);
      }
      DecodedNext(machine.trace, start, source, codec, records, i, values, data.value, value.value);
      values := values + [value.value];
    }
    assert records[..|records|] == records;
    return Ok(values);
  }

  lemma DecodedNext(trace: Trace, upTo: nat, source: Source.Source, codec: Codec, records: seq<IndexedRecord>, i: nat,
                    values: seq<Message>, data: seq<Byte>, value: Message)
    requires i < |records| && DecodedFromRetained(trace, upTo, source, codec, records[..i], values)
    requires Source.ReadsBack(trace, upTo, source, records[i].offset, records[i].length, data)
    requires codec.message(data) == Some(value)
    ensures DecodedFromRetained(trace, upTo, source, codec, records[..i + 1], values + [value])
  {
  }

  /** A row's record decodes to the message that was validated for that row. */
  lemma ShownAsValidated(rows: seq<MessageRow>, ms: seq<Message>, content: seq<Byte>, codec: Codec,
                         records: seq<IndexedRecord>, values: seq<Message>, i: nat)
    requires Loader.RowsHold(rows, content, codec, ms) && DecodedFrom(content, codec, records, values) && i < |records|
    requires 1 <= records[i].cursor.rowID <= |rows| && records[i] == RecordOf(rows, records[i].cursor.rowID)
    ensures values[i] == ms[records[i].cursor.rowID - 1] && values[i].ordinal == records[i].cursor.ordinal
    ensures values[i].conversationID == rows[records[i].cursor.rowID - 1].conversationID
  {
    assert Loader.RowHolds(rows[records[i].cursor.rowID - 1], content, codec, ms[records[i].cursor.rowID - 1]);
  }

  // ----- from the bundle to what is shown -----

  /** Position `p` comes before `q`: by descending ordinal, then position. */
  ghost predicate ShownBefore(ms: seq<Message>, p: nat, q: nat) {
    p < |ms| && q < |ms| && (ms[p].ordinal > ms[q].ordinal || (ms[p].ordinal == ms[q].ordinal && p > q))
  }

  /** Exactly the positions of the conversation's messages, in the order they are shown. */
  ghost predicate ArePlaces(places: seq<nat>, ms: seq<Message>, conversationID: string) {
    && (forall p: nat :: p in places <==> p < |ms| && ms[p].conversationID == conversationID)
    && forall i, j :: 0 <= i < j < |places| ==> ShownBefore(ms, places[i], places[j])
  }

  /** The values are the conversation's messages, each once, by descending ordinal and then position. */
  ghost predicate ShownInOrder(values: seq<Message>, places: seq<nat>, ms: seq<Message>, conversationID: string) {
    && ArePlaces(places, ms, conversationID)
    && |values| == |places| && forall i :: 0 <= i < |places| ==> places[i] < |ms| && values[i] == ms[places[i]]
  }

  function Places(records: seq<IndexedRecord>): (r: seq<nat>)
    requires forall x :: x in records ==> 1 <= x.cursor.rowID
    ensures |r| == |records| && forall i :: 0 <= i < |r| ==> r[i] == records[i].cursor.rowID - 1
  {
    seq(|records|, i requires 0 <= i < |records| => assert records[i] in records; records[i].cursor.rowID - 1)
  }

  /** Row by row, the columns that select and sort are those of the messages. */
  ghost predicate SameColumns(rows: seq<MessageRow>, ms: seq<Message>) {
    |rows| == |ms| && forall p :: 0 <= p < |ms| ==> SameKeys(rows[p], ms[p])
  }

  ghost predicate SameKeys(row: MessageRow, m: Message) {
    row.conversationID == m.conversationID && row.ordinal == m.ordinal
  }

  lemma RowsHaveColumns(rows: seq<MessageRow>, ms: seq<Message>, content: seq<Byte>, codec: Codec)
    requires Loader.RowsHold(rows, content, codec, ms)
    ensures SameColumns(rows, ms)
  {
    forall p | 0 <= p < |ms|
      ensures SameKeys(rows[p], ms[p])
    {
      assert Loader.RowHolds(rows[p], content, codec, ms[p]);
    }
  }

  lemma PlacesMean(rows: seq<MessageRow>, ms: seq<Message>, conversationID: string, records: seq<IndexedRecord>)
    returns (places: seq<nat>)
    requires SameColumns(rows, ms) && records == Conversation(rows, conversationID)
    ensures forall x :: x in records ==> 1 <= x.cursor.rowID
    ensures places == Places(records) && ArePlaces(places, ms, conversationID)
  {
    ConversationMeans(rows, conversationID);
    places := Places(records);
    forall i | 0 <= i < |places|
      ensures places[i] < |ms| && SameKeys(rows[places[i]], ms[places[i]])
        && rows[places[i]].conversationID == conversationID
      ensures records[i].cursor == Cursor(ms[places[i]].ordinal, places[i] + 1)
    {
      assert records[i] in records;
    }
    forall p: nat | p < |ms| && ms[p].conversationID == conversationID
      ensures p in places
    {
      PlaceOfRow(rows, ms, conversationID, records, p);
    }
    forall i, j | 0 <= i < j < |places|
      ensures ShownBefore(ms, places[i], places[j])
    {
      assert Newer(records[i].cursor, records[j].cursor);
    }
  }

  lemma PlaceOfRow(rows: seq<MessageRow>, ms: seq<Message>, conversationID: string, records: seq<IndexedRecord>, p: nat)
    requires SameColumns(rows, ms) && records == Conversation(rows, conversationID)
    requires p < |ms| && ms[p].conversationID == conversationID
    requires forall x :: x in records ==> 1 <= x.cursor.rowID
    ensures p in Places(records)
  {
    ConversationMeans(rows, conversationID);
    assert SameKeys(rows[p], ms[p]);
    assert RecordOf(rows, p + 1) in records;
    var i :| 0 <= i < |records| && records[i] == RecordOf(rows, p + 1);
    assert Places(records)[i] == p;
  }

  /** A conversation read through the index of a file is that file's conversation. */
  lemma ConversationIsShown(rows: seq<MessageRow>, ms: seq<Message>, content: seq<Byte>, codec: Codec,
                            conversationID: string,
                            records: seq<IndexedRecord>, values: seq<Message>) returns (places: seq<nat>)
    requires Loader.RowsHold(rows, content, codec, ms) && records == Conversation(rows, conversationID)
    requires DecodedFrom(content, codec, records, values)
    ensures ShownInOrder(values, places, ms, conversationID)
  {
    RowsHaveColumns(rows, ms, content, codec);
    places := PlacesMean(rows, ms, conversationID, records);
    ConversationMeans(rows, conversationID);
    forall i | 0 <= i < |places|
      ensures places[i] < |ms| && values[i] == ms[places[i]]
    {
      assert records[i] in records;
      ShownAsValidated(rows, ms, content, codec, records, values, i);
    }
  }
}
