/**
  Searching for short queries with SQL LIKE
  (Sources/GreenBubblesHistory/HistoryStore.swift, `searchMessages` below three
  characters, and `escapeLike`).
 */
module LikeSearch {
  import opened Wrappers

  const ESCAPE := '\\'

  // ----- escaping -----

  /** Every occurrence of one character becomes two. */
  function Replace(s: string, c: char, replacement: string): string {
    if s == [] then []
    else (if s[0] == c then replacement else [s[0]]) + Replace(s[1..], c, replacement)
  }

  function EscapeLike(value: string): string {
    Replace(Replace(Replace(value, '\\', "\\\\"), '%', "\\%"), '_', "\\_")
  }

  predicate Special(c: char) {
    c == '\\' || c == '%' || c == '_'
  }

  /** One pass: a special character gets the escape character in front. */
  function Escaped(s: string): string {
    if s == [] then []
    else (if Special(s[0]) then [ESCAPE, s[0]] else [s[0]]) + Escaped(s[1..])
  }

  lemma {:induction false} ReplaceJoin(a: string, b: string, c: char, replacement: string)
    ensures Replace(a + b, c, replacement) == Replace(a, c, replacement) + Replace(b, c, replacement)
  {
    if a == [] {
      assert a + b == b;
    } else {
      var head := if a[0] == c then replacement else [a[0]];
      var x, y := Replace(a[1..], c, replacement), Replace(b, c, replacement);
      ReplaceJoin(a[1..], b, c, replacement);
      assert (a + b)[1..] == a[1..] + b;
      assert head + (x + y) == (head + x) + y;
    }
  }

  lemma ReplaceOne(a: char, c: char, replacement: string)
    ensures Replace([a], c, replacement) == if a == c then replacement else [a]
  {
    assert [a][1..] == [];
  }

  lemma ReplaceTwo(a: char, b: char, c: char, replacement: string)
    ensures Replace([a, b], c, replacement) == Replace([a], c, replacement) + Replace([b], c, replacement)
  {
    ReplaceJoin([a], [b], c, replacement);
    assert [a] + [b] == [a, b];
  }

  /** What each pass makes of one character. */
  lemma PassesOverOne(c: char)
    ensures Replace([c], '\\', "\\\\") == if c == '\\' then "\\\\" else [c]
    ensures Replace(if c == '\\' then "\\\\" else [c], '%', "\\%")
      == if c == '\\' then "\\\\" else if c == '%' then "\\%" else [c]
    ensures Replace(if c == '\\' then "\\\\" else if c == '%' then "\\%" else [c], '_', "\\_")
      == if Special(c) then [ESCAPE, c] else [c]
  {
    ReplaceOne(c, '\\', "\\\\");
    ReplaceOne(c, '%', "\\%");
    ReplaceOne(c, '_', "\\_");
    ReplaceOne('\\', '%', "\\%");
    ReplaceOne('\\', '_', "\\_");
    ReplaceOne('%', '_', "\\_");
    ReplaceTwo('\\', '\\', '%', "\\%");
    ReplaceTwo('\\', '\\', '_', "\\_");
    ReplaceTwo('\\', '%', '_', "\\_");
  }

  /** The three replacements, one after the other, escape every character once. */
  lemma {:induction false} ThreePassesAreOne(s: string)
    ensures EscapeLike(s) == Escaped(s)
  {
    if s != [] {
      var c, rest := s[0], s[1..];
      ThreePassesAreOne(rest);
      PassesOverOne(c);
      var one, two := Replace([c], '\\', "\\\\"), Replace(Replace([c], '\\', "\\\\"), '%', "\\%");
      assert s == [c] + rest;
      ReplaceJoin([c], rest, '\\', "\\\\");
      ReplaceJoin(one, Replace(rest, '\\', "\\\\"), '%', "\\%");
      ReplaceJoin(two, Replace(Replace(rest, '\\', "\\\\"), '%', "\\%"), '_', "\\_");
    }
  }

  /** A backslash goes in front of a backslash, a percent sign or an underscore, and of nothing else. */
  lemma EscapedOne(c: char)
    ensures c in {'\\', '%', '_'} ==> EscapeLike([c]) == ['\\', c]
    ensures c !in {'\\', '%', '_'} ==> EscapeLike([c]) == [c]
  {
    ThreePassesAreOne([c]);
    assert [c][1..] == [];
  }

  // ----- matching -----

  /** LIKE folds the ASCII letters only. */
  function Fold(c: char): char {
    if 'A' <= c <= 'Z' then c - 'A' + 'a' else c
  }

  predicate Like(pattern: string, s: string)
    decreases |pattern|, |s|
  {
    if pattern == [] then s == []
    else if pattern[0] == '%' then Like(pattern[1..], s) || (s != [] && Like(pattern, s[1..]))
    else if s == [] then false
    else if pattern[0] == '_' then Like(pattern[1..], s[1..])
    else if pattern[0] == ESCAPE then |pattern| >= 2 && Fold(pattern[1]) == Fold(s[0]) && Like(pattern[2..], s[1..])
    else Fold(pattern[0]) == Fold(s[0]) && Like(pattern[1..], s[1..])
  }

  /** The same character, or the two cases of one ASCII letter. */
  ghost predicate SameButCase(a: char, b: char) {
    a == b || ('A' <= a <= 'Z' && b as int == a as int + 32) || ('A' <= b <= 'Z' && a as int == b as int + 32)
  }

  lemma FoldMeans(a: char, b: char)
    ensures Fold(a) == Fold(b) <==> SameButCase(a, b)
  {
  }

  ghost predicate StartsWith(s: string, query: string) {
    |query| <= |s| && forall i :: 0 <= i < |query| ==> SameButCase(s[i], query[i])
  }

  ghost predicate Contains(s: string, query: string) {
    exists i :: 0 <= i <= |s| && StartsWith(s[i..], query)
  }

  lemma {:induction false} AnythingMatches(s: string)
    ensures Like("%", s)
  {
    assert "%"[1..] == [];
    if s != [] {
      AnythingMatches(s[1..]);
    }
  }

  /** Escaped, a query stands for its own characters. */
  lemma {:induction false} EscapedMatchesPrefix(query: string, s: string)
    ensures Like(Escaped(query) + "%", s) <==> StartsWith(s, query)
  {
    if query == [] {
      assert Escaped(query) + "%" == "%";
      AnythingMatches(s);
    } else {
      var head := if Special(query[0]) then [ESCAPE, query[0]] else [query[0]];
      var tail := Escaped(query[1..]) + "%";
      var pattern := Escaped(query) + "%";
      assert pattern == head + tail;
      assert pattern[|head|..] == tail;
      if s != [] {
        EscapedMatchesPrefix(query[1..], s[1..]);
        FoldMeans(query[0], s[0]);
        assert Like(pattern, s) <==> SameButCase(s[0], query[0]) && Like(tail, s[1..]);
        if StartsWith(s, query) {
          assert forall i :: 0 <= i < |query[1..]| ==> SameButCase(s[1..][i], query[1..][i]) by {
            assert forall i :: 0 <= i < |query[1..]| ==> s[1..][i] == s[i + 1] && query[1..][i] == query[i + 1];
          }
        }
        if SameButCase(s[0], query[0]) && StartsWith(s[1..], query[1..]) {
          forall i | 0 <= i < |query|
            ensures SameButCase(s[i], query[i])
          {
            assert i > 0 ==> s[i] == s[1..][i - 1] && query[i] == query[1..][i - 1];
          }
        }
      }
    }
  }

  lemma {:induction false} SomewhereMatches(pattern: string, s: string)
    ensures Like("%" + pattern, s) <==> exists i :: 0 <= i <= |s| && Like(pattern, s[i..])
  {
    var p := "%" + pattern;
    assert p[1..] == pattern && s[0..] == s;
    if s != [] {
      SomewhereMatches(pattern, s[1..]);
      if i :| 0 <= i <= |s[1..]| && Like(pattern, s[1..][i..]) {
        assert s[1..][i..] == s[i + 1..];
      }
      if i :| 0 <= i <= |s| && Like(pattern, s[i..]) {
        assert i > 0 ==> s[1..][i - 1..] == s[i..];
      }
    }
  }

  /** The pattern made of a query finds exactly the texts that contain it, up to ASCII case. */
  lemma PatternFindsQuery(query: string, s: string)
    ensures Like("%" + EscapeLike(query) + "%", s) <==> Contains(s, query)
  {
    ThreePassesAreOne(query);
    var pattern := Escaped(query) + "%";
    assert "%" + Escaped(query) + "%" == "%" + pattern;
    SomewhereMatches(pattern, s);
    if i :| 0 <= i <= |s| && Like(pattern, s[i..]) {
      EscapedMatchesPrefix(query, s[i..]);
    }
    if i :| 0 <= i <= |s| && StartsWith(s[i..], query) {
      EscapedMatchesPrefix(query, s[i..]);
    }
  }

  // ----- the three searched columns -----

  datatype Searched = Searched(payloadSummary: Option<string>, senderDisplayName: Option<string>,
                               conversationLabel: string)

  /** A missing text never matches. */
  predicate LikeColumn(pattern: string, column: Option<string>) {
    column.Some? && Like(pattern, column.value)
  }

  predicate Found(query: string, row: Searched) {
    var pattern := "%" + EscapeLike(query) + "%";
    LikeColumn(pattern, row.payloadSummary) || LikeColumn(pattern, row.senderDisplayName)
      || Like(pattern, row.conversationLabel)
  }

  /** One of the three columns contains the query, up to ASCII case. */
  ghost predicate ContainsQuery(query: string, row: Searched) {
    (row.payloadSummary.Some? && Contains(row.payloadSummary.value, query))
    || (row.senderDisplayName.Some? && Contains(row.senderDisplayName.value, query))
    || Contains(row.conversationLabel, query)
  }

  /** A short query finds the messages that contain it in one of the three columns. */
  lemma FoundMeans(query: string, row: Searched)
    ensures Found(query, row) <==> ContainsQuery(query, row)
  {
    PatternFindsQuery(query, row.conversationLabel);
    if row.payloadSummary.Some? {
      PatternFindsQuery(query, row.payloadSummary.value);
    }
    if row.senderDisplayName.Some? {
      PatternFindsQuery(query, row.senderDisplayName.value);
    }
  }

  // ----- the short query -----

  datatype SearchedRow = SearchedRow(conversationID: string, ordinal: nat, columns: Searched)

  /** The WHERE clause. */
  predicate Selected(row: SearchedRow, query: string, conversationID: Option<string>) {
    (conversationID.None? || row.conversationID == conversationID.value) && Found(query, row.columns)
  }

  /** An answer to the query before its limit: the places of the selected rows by descending ordinal; ties stay open. */
  ghost predicate Answers(answer: seq<nat>, rows: seq<SearchedRow>, query: string, conversationID: Option<string>) {
    && (forall p: nat :: p in answer <==> p < |rows| && Selected(rows[p], query, conversationID))
    && forall i, j :: 0 <= i < j < |answer| ==>
         answer[i] < |rows| && answer[j] < |rows| && answer[i] != answer[j]
           && rows[answer[i]].ordinal >= rows[answer[j]].ordinal
  }

  function ClampLimit(requested: int): nat {
    if requested < 1 then 1 else if requested > 250 then 250 else requested
  }

  /** What is shown contains the query, is of the conversation, and comes newest first. */
  ghost predicate ShowsFound(shown: seq<nat>, rows: seq<SearchedRow>, query: string, conversationID: Option<string>) {
    && (forall p :: p in shown ==>
          p < |rows| && (conversationID.Some? ==> rows[p].conversationID == conversationID.value)
            && ContainsQuery(query, rows[p].columns))
    && forall i, j :: 0 <= i < j < |shown| ==>
         shown[i] < |rows| && shown[j] < |rows| && shown[i] != shown[j]
           && rows[shown[i]].ordinal >= rows[shown[j]].ordinal
  }

  /** What contains the query and is not shown is no newer than anything shown, and the limit is used up. */
  ghost predicate LeavesOutOldest(shown: seq<nat>, rows: seq<SearchedRow>, query: string,
                                  conversationID: Option<string>, limit: nat) {
    forall p: nat :: p < |rows| && p !in shown && ContainsQuery(query, rows[p].columns)
                     && (conversationID.Some? ==> rows[p].conversationID == conversationID.value) ==>
      |shown| == limit && forall i :: 0 <= i < |shown| && shown[i] < |rows| ==>
        rows[p].ordinal <= rows[shown[i]].ordinal
  }

  /** At most `limit` messages, and the newest that contain the query. */
  ghost predicate AnswersWithin(shown: seq<nat>, rows: seq<SearchedRow>, query: string,
                                conversationID: Option<string>, limit: nat) {
    |shown| <= limit && ShowsFound(shown, rows, query, conversationID)
    && LeavesOutOldest(shown, rows, query, conversationID, limit)
  }

  lemma FirstAreFound(answer: seq<nat>, rows: seq<SearchedRow>, query: string, conversationID: Option<string>, n: nat)
    requires Answers(answer, rows, query, conversationID) && n <= |answer|
    ensures ShowsFound(answer[..n], rows, query, conversationID)
  {
    forall p | p in answer[..n]
      ensures p < |rows| && Selected(rows[p], query, conversationID) && ContainsQuery(query, rows[p].columns)
    {
      assert p in answer;
      FoundMeans(query, rows[p].columns);
    }
  }

  lemma RestIsOlder(answer: seq<nat>, rows: seq<SearchedRow>, query: string, conversationID: Option<string>, n: nat,
                    p: nat)
    requires Answers(answer, rows, query, conversationID) && n <= |answer|
    requires p in answer && p !in answer[..n]
    ensures p < |rows| && n < |answer|
    ensures forall i :: 0 <= i < n && answer[i] < |rows| ==> rows[p].ordinal <= rows[answer[i]].ordinal
  {
    assert answer == answer[..n] + answer[n..];
    var k :| 0 <= k < |answer[n..]| && answer[n..][k] == p;
    assert answer[n + k] == p;
  }

  lemma OldestAreLeftOut(answer: seq<nat>, rows: seq<SearchedRow>, query: string, conversationID: Option<string>,
                         limit: nat)
    requires Answers(answer, rows, query, conversationID)
    ensures LeavesOutOldest(First(answer, limit), rows, query, conversationID, limit)
  {
    var shown := First(answer, limit);
    forall p: nat | p < |rows| && p !in shown && ContainsQuery(query, rows[p].columns)
                    && (conversationID.Some? ==> rows[p].conversationID == conversationID.value)
      ensures p in answer
    {
      FoundMeans(query, rows[p].columns);
      assert Selected(rows[p], query, conversationID);
    }
    forall p | p in answer && p !in shown
      ensures |shown| == limit
      ensures forall i :: 0 <= i < |shown| && shown[i] < |rows| ==> rows[p].ordinal <= rows[shown[i]].ordinal
    {
      RestIsOlder(answer, rows, query, conversationID, |shown|, p);
    }
  }

  function First(answer: seq<nat>, limit: nat): seq<nat> {
    if limit < |answer| then answer[..limit] else answer[..|answer|]
  }

  /**
    A query of fewer than three characters, already trimmed; `answer` is what the database answers
    before the limit.
   */
  method SearchShort(rows: seq<SearchedRow>, query: string, conversationID: Option<string>, requestedLimit: int,
                     answer: seq<nat>)
    returns (shown: seq<nat>)
    requires |query| < 3 && Answers(answer, rows, query, conversationID)
    ensures query == [] ==> shown == []
    ensures query != [] && requestedLimit < 1 ==> AnswersWithin(shown, rows, query, conversationID, 1)
    ensures query != [] && 1 <= requestedLimit <= 250 ==>
      AnswersWithin(shown, rows, query, conversationID, requestedLimit)
    ensures query != [] && requestedLimit > 250 ==> AnswersWithin(shown, rows, query, conversationID, 250)
  {
    if query == [] {
      return [];
    }
    var limit := ClampLimit(requestedLimit);
    shown := First(answer, limit);
    FirstAreFound(answer, rows, query, conversationID, |shown|);
    OldestAreLeftOut(answer, rows, query, conversationID, limit);
  }
}
