/**
  Which scopes read which conversation-month, and fusing scopes that share a
  window (scripts/personal-memory-parallel.py, `merge_same_window`).
 */
module Coverage {
  import opened Wrappers
  import opened Sequences
  import opened Tasks
  import opened Packing

  predicate InWindow(t: Task, month: Month) {
    (t.fromMonth.Some? ==> t.fromMonth.value <= month) && (t.throughMonth.Some? ==> month <= t.throughMonth.value)
  }

  function Occurrences<T(==)>(s: seq<T>, x: T): nat {
    if s == [] then 0 else (if s[0] == x then 1 else 0) + Occurrences(s[1..], x)
  }

  lemma {:induction false} OccurrencesJoin<T>(left: seq<T>, right: seq<T>, x: T)
    ensures Occurrences(left + right, x) == Occurrences(left, x) + Occurrences(right, x)
  {
    if left == [] {
      assert left + right == right;
    } else {
      OccurrencesJoin(left[1..], right, x);
      assert (left + right)[1..] == left[1..] + right;
    }
  }

  lemma {:induction false} OccursOrNot<T>(s: seq<T>, x: T)
    ensures x in s <==> 0 < Occurrences(s, x)
  {
    if s != [] {
      OccursOrNot(s[1..], x);
      assert s == [s[0]] + s[1..];
    }
  }

  /** How often one scope reads this conversation's month. */
  function Reads(t: Task, alias: string, month: Month): nat {
    if InWindow(t, month) then Occurrences(t.conversations, alias) else 0
  }

  function Reader(alias: string, month: Month): Task -> nat {
    (t: Task) => Reads(t, alias, month)
  }

  /** How often all scopes together read it. */
  function Cover(tasks: seq<Task>, alias: string, month: Month): nat {
    SumBy(tasks, Reader(alias, month))
  }

  lemma {:induction false} NotCovered(tasks: seq<Task>, alias: string, month: Month)
    requires forall t :: t in tasks ==> alias !in t.conversations
    ensures Cover(tasks, alias, month) == 0
  {
    if tasks != [] {
      OccursOrNot(tasks[0].conversations, alias);
      NotCovered(tasks[1..], alias, month);
    }
  }

  ghost predicate Denotes(t: Task, alias: string, month: Month) {
    InWindow(t, month) && alias in t.conversations
  }

  /** Covered once means: one scope reads it, names the conversation once, and no other scope reads it. */
  lemma {:induction false} CoveredOnce(tasks: seq<Task>, alias: string, month: Month) returns (at: nat)
    requires Cover(tasks, alias, month) == 1
    ensures at < |tasks| && Denotes(tasks[at], alias, month) && Occurrences(tasks[at].conversations, alias) == 1
    ensures forall i :: 0 <= i < |tasks| && i != at ==> !Denotes(tasks[i], alias, month)
  {
    OccursOrNot(tasks[0].conversations, alias);
    if Denotes(tasks[0], alias, month) {
      at := 0;
      CoveredNever(tasks[1..], alias, month);
    } else {
      at := CoveredOnce(tasks[1..], alias, month);
      at := at + 1;
    }
  }

  lemma {:induction false} CoveredNever(tasks: seq<Task>, alias: string, month: Month)
    requires Cover(tasks, alias, month) == 0
    ensures forall i :: 0 <= i < |tasks| ==> !Denotes(tasks[i], alias, month)
  {
    if tasks != [] {
      OccursOrNot(tasks[0].conversations, alias);
      CoveredNever(tasks[1..], alias, month);
    }
  }

  // ----- fusing -----

  predicate SameWindow(a: Task, b: Task) {
    a.fromMonth == b.fromMonth && a.throughMonth == b.throughMonth
  }

  ghost predicate DistinctWindows(tasks: seq<Task>) {
    forall i, j :: 0 <= i < j < |tasks| ==> !SameWindow(tasks[i], tasks[j])
  }

  function Fuse(a: Task, b: Task): Task {
    a.(conversations := a.conversations + b.conversations, messages := a.messages + b.messages,
       labels := a.labels + b.labels)
  }

  ghost predicate SameWork(a: seq<Task>, b: seq<Task>) {
    Messages(a) == Messages(b) && forall alias, month :: Cover(a, alias, month) == Cover(b, alias, month)
  }

  /** Every conversation of a scope comes from a scope with the same window. */
  ghost predicate ComesFrom(t: Task, sources: seq<Task>) {
    t.conversations != [] && forall alias :: alias in t.conversations ==>
      exists s :: s in sources && SameWindow(s, t) && alias in s.conversations
  }

  lemma FuseAt(tasks: seq<Task>, i: nat, t: Task)
    requires i < |tasks| && SameWindow(tasks[i], t)
    ensures SameWork(tasks[i := Fuse(tasks[i], t)], tasks + [t])
  {
    var fused := tasks[i := Fuse(tasks[i], t)];
    SumByRemoveAt(tasks, i, MessagesOf);
    SumByRemoveAt(fused, i, MessagesOf);
    MessagesSnoc(tasks, t);
    assert RemoveAt(fused, i) == RemoveAt(tasks, i);
    forall alias, month
      ensures Cover(fused, alias, month) == Cover(tasks + [t], alias, month)
    {
      SumByRemoveAt(tasks, i, Reader(alias, month));
      SumByRemoveAt(fused, i, Reader(alias, month));
      SumBySnoc(tasks, t, Reader(alias, month));
      OccurrencesJoin(tasks[i].conversations, t.conversations, alias);
    }
  }

  lemma AppendBoth(a: seq<Task>, b: seq<Task>, t: Task)
    requires SameWork(a, b)
    ensures SameWork(a + [t], b + [t])
  {
    MessagesSnoc(a, t);
    MessagesSnoc(b, t);
    forall alias, month
      ensures Cover(a + [t], alias, month) == Cover(b + [t], alias, month)
    {
      assert Cover(a, alias, month) == Cover(b, alias, month);
      SumBySnoc(a, t, Reader(alias, month));
      SumBySnoc(b, t, Reader(alias, month));
    }
  }

  function WindowIndex(tasks: seq<Task>, t: Task): (r: Option<nat>)
    ensures r.Some? ==> r.value < |tasks| && SameWindow(tasks[r.value], t)
    ensures r.None? ==> forall i :: 0 <= i < |tasks| ==> !SameWindow(tasks[i], t)
  {
    if tasks == [] then None
    else if SameWindow(tasks[0], t) then Some(0)
    else match WindowIndex(tasks[1..], t) case Some(i) => Some(i + 1) case None => None
  }

  /** One scope per window, reading exactly what the given scopes read. */
  method MergeSameWindow(tasks: seq<Task>) returns (fused: seq<Task>)
    requires forall t :: t in tasks ==> t.conversations != []
    ensures DistinctWindows(fused)
    ensures SameWork(fused, tasks)
    ensures forall t :: t in fused ==> ComesFrom(t, tasks)
    ensures tasks != [] ==> fused != []
  {
    fused := [];
    for i := 0 to |tasks|
      invariant DistinctWindows(fused) && SameWork(fused, tasks[..i])
      invariant forall t :: t in fused ==> ComesFrom(t, tasks)
      invariant i > 0 ==> fused != []
    {
      var task := tasks[i];
      assert tasks[..i + 1] == tasks[..i] + [task];
      assert ComesFrom(task, tasks);
      AppendBoth(fused, tasks[..i], task);
      match WindowIndex(fused, task) {
        case None =>
          fused := fused + [task];
        case Some(at) =>
          FuseAt(fused, at, task);
          FusedComesFrom(fused[at], task, tasks);
          fused := fused[at := Fuse(fused[at], task)];
      }
    }
    assert tasks[..|tasks|] == tasks;
  }

  lemma FusedComesFrom(a: Task, b: Task, sources: seq<Task>)
    requires ComesFrom(a, sources) && ComesFrom(b, sources) && SameWindow(a, b)
    ensures ComesFrom(Fuse(a, b), sources)
  {
    forall alias | alias in Fuse(a, b).conversations
      ensures exists s :: s in sources && SameWindow(s, Fuse(a, b)) && alias in s.conversations
    {
      if alias in a.conversations {
        var s :| s in sources && SameWindow(s, a) && alias in s.conversations;
      } else {
        var s :| s in sources && SameWindow(s, b) && alias in s.conversations;
      }
    }
  }
}
