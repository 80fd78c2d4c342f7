/**
  Cutting an oversized conversation into month ranges
  (scripts/personal-memory-parallel.py, `split_conversation`).
 */
module Splitting {
  import opened Wrappers
  import opened Sequences
  import opened Tasks

  /** A range the planner may read at once: within the limit, or a single month. */
  ghost predicate IsPiece(piece: seq<MonthCount>, limit: nat) {
    piece != [] && (Total(piece) <= limit || |piece| == 1)
  }

  /** Consecutive pieces that together are `months`. */
  ghost predicate IsPartition(pieces: seq<seq<MonthCount>>, months: seq<MonthCount>, limit: nat) {
    Flatten(pieces) == months && forall p :: p in pieces ==> IsPiece(p, limit)
  }

  /** What the loop still produces when `current` is open and `rest` is to come. */
  function Continue(current: seq<MonthCount>, rest: seq<MonthCount>, limit: nat): seq<seq<MonthCount>>
    decreases |rest|
  {
    if rest == [] then
      if current != [] then [current] else []
    else if current != [] && Total(current) + rest[0].count > limit then
      [current] + Continue([rest[0]], rest[1..], limit)
    else
      Continue(current + [rest[0]], rest[1..], limit)
  }

  lemma {:induction false} ContinueIsPartition(current: seq<MonthCount>, rest: seq<MonthCount>, limit: nat)
    requires current == [] || IsPiece(current, limit)
    ensures IsPartition(Continue(current, rest, limit), current + rest, limit)
    decreases |rest|
  {
    if rest == [] {
      FlattenOne(current);
      assert current + rest == current;
    } else if current != [] && Total(current) + rest[0].count > limit {
      ContinueIsPartition([rest[0]], rest[1..], limit);
      assert [rest[0]] + rest[1..] == rest;
    } else {
      SumBySnoc(current, rest[0], CountOfMonth);
      ContinueIsPartition(current + [rest[0]], rest[1..], limit);
      assert current + [rest[0]] + rest[1..] == current + rest;
    }
  }

  /**
    The greedy cut stays ahead: if a rival's open piece began no later than
    ours, the rival needs at least as many pieces from here on.
   */
  lemma {:induction false} GreedyStaysAhead(earlier: seq<MonthCount>, current: seq<MonthCount>, rest: seq<MonthCount>,
                                            limit: nat, rival: seq<seq<MonthCount>>)
    requires current != []
    requires IsPartition(rival, earlier + current + rest, limit)
    ensures |Continue(current, rest, limit)| <= |rival|
    decreases |rest|
  {
    var all := earlier + current + rest;
    assert rival != [] by {
      assert all != [];
    }
    if rest == [] {
    } else if Total(current) + rest[0].count > limit {
      var first := rival[0];
      assert all == first + Flatten(rival[1..]);
      FirstPieceEnds(earlier, current, rest, limit, first);
      var left := (earlier + current)[|first|..];
      assert all[|first|..] == left + [rest[0]] + rest[1..];
      assert Flatten(rival[1..]) == all[|first|..];
      GreedyStaysAhead(left, [rest[0]], rest[1..], limit, rival[1..]);
    } else {
      assert earlier + (current + [rest[0]]) + rest[1..] == all;
      GreedyStaysAhead(earlier, current + [rest[0]], rest[1..], limit, rival);
    }
  }

  /** No piece spans all of `current` and the month that does not fit behind it. */
  lemma FirstPieceEnds(earlier: seq<MonthCount>, current: seq<MonthCount>, rest: seq<MonthCount>, limit: nat,
                       first: seq<MonthCount>)
    requires current != [] && rest != [] && Total(current) + rest[0].count > limit
    requires IsPiece(first, limit) && first <= earlier + current + rest
    ensures |first| <= |earlier + current|
  {
    var spanned := earlier + current + [rest[0]];
    if |earlier + current| < |first| {
      assert first == spanned + first[|spanned|..];
      SumByJoin(spanned, first[|spanned|..], CountOfMonth);
      SumBySnoc(earlier + current, rest[0], CountOfMonth);
      SumByJoin(earlier, current, CountOfMonth);
    }
  }

  /** No way of cutting the months into such pieces needs fewer of them. */
  lemma GreedyIsOptimal(months: seq<MonthCount>, limit: nat, rival: seq<seq<MonthCount>>)
    requires IsPartition(rival, months, limit)
    ensures |Continue([], months, limit)| <= |rival|
  {
    if months != [] {
      assert [] + [months[0]] + months[1..] == months;
      GreedyStaysAhead([], [months[0]], months[1..], limit, rival);
      assert [] + [months[0]] == [months[0]];
    }
  }

  function PieceTask(conversation: Conversation, piece: seq<MonthCount>): Task
    requires piece != []
  {
    Task([conversation.alias], Total(piece), [conversation.title], Some(piece[0].month), Some(piece[|piece| - 1].month))
  }

  ghost predicate AreTasksOf(tasks: seq<Task>, conversation: Conversation, pieces: seq<seq<MonthCount>>) {
    |tasks| == |pieces|
    && forall i :: 0 <= i < |pieces| ==> pieces[i] != [] && tasks[i] == PieceTask(conversation, pieces[i])
  }

  function Chronological(conversation: Conversation): seq<MonthCount> {
    SortByKey(conversation.months, (m: MonthCount) => m.month)
  }

  /** The tasks are the ranges of a partition of all months, and no partition has fewer pieces. */
  method SplitConversation(conversation: Conversation, limit: nat)
    returns (tasks: seq<Task>, ghost pieces: seq<seq<MonthCount>>)
    ensures AreTasksOf(tasks, conversation, pieces)
    ensures IsPartition(pieces, Chronological(conversation), limit)
    ensures forall rival :: IsPartition(rival, Chronological(conversation), limit) ==> |tasks| <= |rival|
  {
    var months := Chronological(conversation);
    tasks, pieces := [], [];
    var current: seq<MonthCount> := [];
    var running: nat := 0;
    for i := 0 to |months|
      invariant Cutting(conversation, months, i, limit, tasks, pieces, current, running)
    {
      if current != [] && running + months[i].count > limit {
        CutHere(conversation, months, i, limit, tasks, pieces, current, running);
        tasks := tasks + [Task([conversation.alias], running, [conversation.title],
                               Some(current[0].month), Some(current[|current| - 1].month))];
        pieces := pieces + [current];
        current, running := [], 0;
      }
      TakeMonth(conversation, months, i, limit, tasks, pieces, current, running);
      current := current + [months[i]];
      running := running + months[i].count;
    }
    if current != [] {
      tasks := tasks + [Task([conversation.alias], running, [conversation.title],
                             Some(current[0].month), Some(current[|current| - 1].month))];
      pieces := pieces + [current];
    }
    SplitIsOptimal(months, limit, pieces);
  }

  /** The loop state: what is cut, what is open, and that the rest follows the greedy rule. */
  ghost predicate Cutting(conversation: Conversation, months: seq<MonthCount>, i: nat, limit: nat,
                          tasks: seq<Task>, pieces: seq<seq<MonthCount>>, current: seq<MonthCount>, running: nat) {
    i <= |months| && running == Total(current) && AreTasksOf(tasks, conversation, pieces)
    && pieces + Continue(current, months[i..], limit) == Continue([], months, limit)
  }

  lemma CutHere(conversation: Conversation, months: seq<MonthCount>, i: nat, limit: nat,
                tasks: seq<Task>, pieces: seq<seq<MonthCount>>, current: seq<MonthCount>, running: nat)
    requires Cutting(conversation, months, i, limit, tasks, pieces, current, running)
    requires i < |months| && current != [] && running + months[i].count > limit
    ensures Cutting(conversation, months, i, limit, tasks + [PieceTask(conversation, current)], pieces + [current], [],
                    0)
  {
    assert months[i..][0] == months[i] && [] + [months[i]] == [months[i]];
    assert Continue(current, months[i..], limit) == [current] + Continue([], months[i..], limit);
  }

  lemma TakeMonth(conversation: Conversation, months: seq<MonthCount>, i: nat, limit: nat,
                  tasks: seq<Task>, pieces: seq<seq<MonthCount>>, current: seq<MonthCount>, running: nat)
    requires Cutting(conversation, months, i, limit, tasks, pieces, current, running)
    requires i < |months| && !(current != [] && running + months[i].count > limit)
    ensures Cutting(conversation, months, i + 1, limit, tasks, pieces, current + [months[i]], running + months[i].count)
  {
    SumBySnoc(current, months[i], CountOfMonth);
    assert months[i..][1..] == months[i + 1..] && months[i..][0] == months[i];
  }

  lemma SplitIsOptimal(months: seq<MonthCount>, limit: nat, pieces: seq<seq<MonthCount>>)
    requires pieces == Continue([], months, limit)
    ensures IsPartition(pieces, months, limit)
    ensures forall rival :: IsPartition(rival, months, limit) ==> |pieces| <= |rival|
  {
    ContinueIsPartition([], months, limit);
    assert [] + months == months;
    forall rival | IsPartition(rival, months, limit)
      ensures |pieces| <= |rival|
    {
      GreedyIsOptimal(months, limit, rival);
    }
  }
}
