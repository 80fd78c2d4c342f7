/**
  From chosen conversations to shards of scopes
  (scripts/personal-memory-parallel.py, the second half of `command_plan`):
  every kept conversation-month is read by exactly one scope.
 */
module PlanTasks {
  import opened Wrappers
  import opened Sequences
  import opened Tasks
  import opened Packing
  import opened Splitting
  import opened Coverage
  import opened WorkPlan

  // ----- month lists in another order -----

  lemma SameMonths(a: seq<MonthCount>, b: seq<MonthCount>)
    requires multiset(a) == multiset(b) && DistinctMonths(a)
    ensures DistinctMonths(b) && Total(a) == Total(b)
    ensures forall m :: HasMonth(a, m) <==> HasMonth(b, m)
  {
    DistinctPermutation(a, b, MonthOf);
    SumByPermutation(a, b, CountOfMonth);
    SameMembers(a, b);
    assert forall m :: HasMonth(a, m) <==> exists x :: x in a && x.month == m;
  }

  ghost predicate StrictlyAscending(months: seq<MonthCount>) {
    forall i, j :: 0 <= i < j < |months| ==> months[i].month < months[j].month
  }

  lemma ChronologicalMonths(c: Conversation)
    requires DistinctMonths(c.months)
    ensures StrictlyAscending(Chronological(c)) && Total(Chronological(c)) == Total(c.months)
    ensures forall m :: HasMonth(c.months, m) <==> HasMonth(Chronological(c), m)
  {
    var key := (m: MonthCount) => m.month;
    var sorted := Chronological(c);
    SortIsAscending(c.months, key);
    SameMonths(c.months, sorted);
    forall i, j | 0 <= i < j < |sorted|
      ensures sorted[i].month < sorted[j].month
    {
      assert key(sorted[i]) <= key(sorted[j]);
      assert MonthOf(sorted[i]) != MonthOf(sorted[j]);
    }
  }

  // ----- the ranges of one split conversation -----

  lemma AscendingTail(piece: seq<MonthCount>, rest: seq<MonthCount>)
    requires StrictlyAscending(piece + rest) && piece != []
    ensures StrictlyAscending(rest)
    ensures forall m :: m in rest ==> piece[|piece| - 1].month < m.month
    ensures forall m :: m in piece ==> piece[0].month <= m.month <= piece[|piece| - 1].month
  {
    var all := piece + rest;
    assert forall i :: 0 <= i < |rest| ==> all[|piece| + i] == rest[i];
    assert forall i :: 0 <= i < |piece| ==> all[i] == piece[i];
  }

  /** Ranges that all begin later do not read this month. */
  lemma {:induction false} LaterRangesDoNotCover(tasks: seq<Task>, c: Conversation, pieces: seq<seq<MonthCount>>,
                                                 month: Month)
    requires AreTasksOf(tasks, c, pieces)
    requires forall m :: m in Flatten(pieces) ==> month < m.month
    ensures Cover(tasks, c.alias, month) == 0
  {
    if pieces != [] {
      assert tasks[0] == PieceTask(c, pieces[0]);
      assert pieces[0][0] in Flatten(pieces);
      LaterRangesDoNotCover(tasks[1..], c, pieces[1..], month);
    }
  }

  /** Consecutive ranges of an ascending list read each of its months once. */
  lemma {:induction false} RangesCoverOnce(tasks: seq<Task>, c: Conversation, pieces: seq<seq<MonthCount>>,
                                           m: MonthCount)
    requires AreTasksOf(tasks, c, pieces) && StrictlyAscending(Flatten(pieces)) && m in Flatten(pieces)
    ensures Cover(tasks, c.alias, m.month) == 1
    decreases |pieces|
  {
    var piece, rest := pieces[0], Flatten(pieces[1..]);
    AscendingTail(piece, rest);
    assert tasks[0] == PieceTask(c, piece) && Occurrences([c.alias], c.alias) == 1;
    if m in piece {
      LaterRangesDoNotCover(tasks[1..], c, pieces[1..], m.month);
    } else {
      RangesCoverOnce(tasks[1..], c, pieces[1..], m);
    }
  }

  lemma {:induction false} RangeMessages(tasks: seq<Task>, c: Conversation, pieces: seq<seq<MonthCount>>)
    requires AreTasksOf(tasks, c, pieces)
    ensures Messages(tasks) == Total(Flatten(pieces))
  {
    if pieces != [] {
      RangeMessages(tasks[1..], c, pieces[1..]);
      SumByJoin(pieces[0], Flatten(pieces[1..]), CountOfMonth);
    }
  }

  // ----- month buckets -----

  datatype Item = Item(alias: string, title: string, count: nat)

  datatype Bucket = Bucket(month: Month, items: seq<Item>)

  function BucketMonth(b: Bucket): Month {
    b.month
  }

  function ItemCount(item: Item): nat {
    item.count
  }

  function BucketCount(b: Bucket): nat {
    SumBy(b.items, ItemCount)
  }

  function Named(alias: string): Item -> nat {
    (item: Item) => if item.alias == alias then 1 else 0
  }

  function ItemsOf(buckets: seq<Bucket>, month: Month): seq<Item> {
    if buckets == [] then []
    else if buckets[0].month == month then buckets[0].items
    else ItemsOf(buckets[1..], month)
  }

  /** `buckets.setdefault(month, []).append(item)` */
  function AddItem(buckets: seq<Bucket>, month: Month, item: Item): seq<Bucket> {
    if buckets == [] then [Bucket(month, [item])]
    else if buckets[0].month == month then [Bucket(month, buckets[0].items + [item])] + buckets[1..]
    else [buckets[0]] + AddItem(buckets[1..], month, item)
  }

  lemma {:induction false} AddItemMonths(buckets: seq<Bucket>, month: Month, item: Item)
    ensures forall b :: b in AddItem(buckets, month, item) ==> b.month == month || b in buckets
  {
    if buckets != [] && buckets[0].month != month {
      AddItemMonths(buckets[1..], month, item);
    }
  }

  lemma {:induction false} AddItemDistinct(buckets: seq<Bucket>, month: Month, item: Item)
    requires DistinctBy(buckets, BucketMonth)
    ensures DistinctBy(AddItem(buckets, month, item), BucketMonth)
  {
    var added := AddItem(buckets, month, item);
    if buckets == [] {
    } else if buckets[0].month == month {
      assert forall i :: 0 < i < |added| ==> added[i] == buckets[i];
    } else {
      AddItemDistinct(buckets[1..], month, item);
      AddItemMonths(buckets[1..], month, item);
      var tail := AddItem(buckets[1..], month, item);
      forall i | 0 <= i < |tail|
        ensures tail[i].month != buckets[0].month
      {
        assert tail[i] in tail;
        if tail[i] in buckets[1..] {
          var j :| 0 <= j < |buckets[1..]| && buckets[1..][j] == tail[i];
          assert BucketMonth(buckets[0]) != BucketMonth(buckets[j + 1]);
        }
      }
    }
  }

  lemma {:induction false} AddItemAdds(buckets: seq<Bucket>, month: Month, item: Item, m: Month)
    ensures ItemsOf(AddItem(buckets, month, item), m) == ItemsOf(buckets, m) + (if m == month then [item] else [])
    ensures SumBy(AddItem(buckets, month, item), BucketCount) == SumBy(buckets, BucketCount) + item.count
  {
    var added := AddItem(buckets, month, item);
    if buckets == [] {
      assert added[1..] == [];
      SumBySnoc([], item, ItemCount);
      assert [] + [item] == [item];
    } else if buckets[0].month == month {
      assert added[1..] == buckets[1..];
      SumBySnoc(buckets[0].items, item, ItemCount);
    } else {
      AddItemAdds(buckets[1..], month, item, m);
      assert added[1..] == AddItem(buckets[1..], month, item);
    }
  }

  function NamedIn(buckets: seq<Bucket>, month: Month, alias: string): nat {
    SumBy(ItemsOf(buckets, month), Named(alias))
  }

  /** `filed` is `buckets` with one more item of `alias` in each of the months. */
  ghost predicate FiledMonths(buckets: seq<Bucket>, filed: seq<Bucket>, alias: string, months: seq<MonthCount>) {
    forall a, m :: NamedIn(filed, m, a) == NamedIn(buckets, m, a) + (if a == alias && HasMonth(months, m) then 1 else 0)
  }

  /** Filing these months of a conversation, on top of `buckets`. */
  ghost predicate Filing(buckets: seq<Bucket>, filed: seq<Bucket>, alias: string, months: seq<MonthCount>, cap: nat) {
    && DistinctBy(filed, BucketMonth) && BucketsWithin(filed, cap)
    && SumBy(filed, BucketCount) == SumBy(buckets, BucketCount) + Total(months)
    && FiledMonths(buckets, filed, alias, months)
  }

  method FileMonths(config: Config, c: Conversation, buckets: seq<Bucket>, ghost cap: nat) returns (filed: seq<Bucket>)
    requires DistinctBy(buckets, BucketMonth) && BucketsWithin(buckets, cap)
    requires WellFormed(c) && Gated(config, c) && MonthsWithin(KeptMonths(config, c), cap)
    ensures Filing(buckets, filed, c.alias, KeptMonths(config, c), cap)
  {
    var kept := KeptMonths(config, c);
    KeptIsDistinct(config, c);
    filed := buckets;
    assert forall m :: !HasMonth(kept[..0], m);
    for i := 0 to |kept|
      invariant Filing(buckets, filed, c.alias, kept[..i], cap)
    {
      FiledNext(buckets, filed, c.alias, c.title, kept, i, cap);
      filed := AddItem(filed, kept[i].month, Item(c.alias, c.title, kept[i].count));
    }
    assert kept[..|kept|] == kept;
  }

  lemma FiledNext(buckets: seq<Bucket>, filed: seq<Bucket>, alias: string, title: string, kept: seq<MonthCount>,
                  i: nat, cap: nat)
    requires DistinctMonths(kept) && MonthsWithin(kept, cap) && i < |kept|
    requires Filing(buckets, filed, alias, kept[..i], cap)
    ensures Filing(buckets, AddItem(filed, kept[i].month, Item(alias, title, kept[i].count)), alias, kept[..i + 1], cap)
  {
    var item := Item(alias, title, kept[i].count);
    AddItemWithin(filed, kept[i].month, item, cap);
    assert kept[..i + 1] == kept[..i] + [kept[i]];
    SumBySnoc(kept[..i], kept[i], CountOfMonth);
    AddItemDistinct(filed, kept[i].month, item);
    AddItemAdds(filed, kept[i].month, item, kept[i].month);
    NextMonth(kept, i);
    forall a, m
      ensures NamedIn(AddItem(filed, kept[i].month, item), m, a)
        == NamedIn(buckets, m, a) + (if a == alias && HasMonth(kept[..i + 1], m) then 1 else 0)
    {
      AddItemAdds(filed, kept[i].month, item, m);
      SumBySnoc(ItemsOf(filed, m), item, Named(a));
      assert ItemsOf(filed, m) + [] == ItemsOf(filed, m);
      assert NamedIn(filed, m, a) == NamedIn(buckets, m, a) + (if a == alias && HasMonth(kept[..i], m) then 1 else 0);
    }
  }

  lemma NextMonth(kept: seq<MonthCount>, i: nat)
    requires DistinctMonths(kept) && i < |kept|
    ensures !HasMonth(kept[..i], kept[i].month)
    ensures forall m :: HasMonth(kept[..i + 1], m) <==> HasMonth(kept[..i], m) || m == kept[i].month
  {
    assert forall j :: 0 <= j < i ==> MonthOf(kept[j]) != MonthOf(kept[i]);
    forall m
      ensures HasMonth(kept[..i + 1], m) <==> HasMonth(kept[..i], m) || m == kept[i].month
    {
      if HasMonth(kept[..i], m) {
        var j :| 0 <= j < i && kept[..i][j].month == m;
        assert kept[..i + 1][j].month == m;
      }
      assert kept[..i + 1][i] == kept[i];
      if HasMonth(kept[..i + 1], m) && m != kept[i].month {
        var j :| 0 <= j < i + 1 && kept[..i + 1][j].month == m;
        assert kept[..i][j].month == m;
      }
    }
  }

  function Aliases(items: seq<Item>): (r: seq<string>)
    ensures |r| == |items|
    ensures forall i :: 0 <= i < |items| ==> r[i] == items[i].alias
  {
    seq(|items|, i requires 0 <= i < |items| => items[i].alias)
  }

  function Titles(items: seq<Item>): seq<string> {
    seq(|items|, i requires 0 <= i < |items| => items[i].title)
  }

  lemma {:induction false} AliasOccurrences(items: seq<Item>, alias: string)
    ensures Occurrences(Aliases(items), alias) == SumBy(items, Named(alias))
  {
    if items != [] {
      AliasOccurrences(items[1..], alias);
      assert Aliases(items)[1..] == Aliases(items[1..]);
    }
  }

  /** One scope for a group of items that share a month. */
  function GroupTask(month: Month, items: seq<Item>): Task {
    Task(Aliases(items), SumBy(items, ItemCount), Titles(items), Some(month), Some(month))
  }

  lemma GroupReads(month: Month, items: seq<Item>, alias: string, m: Month)
    ensures Reads(GroupTask(month, items), alias, m) == if m == month then SumBy(items, Named(alias)) else 0
  {
    AliasOccurrences(items, alias);
  }

  /** No scope is larger than `cap`, which neither the limit nor any kept month exceeds. */
  predicate Sized(t: Task, cap: nat) {
    t.messages <= cap
  }

  ghost predicate MonthsWithin(months: seq<MonthCount>, cap: nat) {
    forall m :: m in months ==> m.count <= cap
  }

  ghost predicate BucketsWithin(buckets: seq<Bucket>, cap: nat) {
    forall b, item :: b in buckets && item in b.items ==> item.count <= cap
  }

  lemma {:induction false} AddItemWithin(buckets: seq<Bucket>, month: Month, item: Item, cap: nat)
    requires BucketsWithin(buckets, cap) && item.count <= cap
    ensures BucketsWithin(AddItem(buckets, month, item), cap)
  {
    if buckets != [] && buckets[0].month != month {
      AddItemWithin(buckets[1..], month, item, cap);
    } else if buckets != [] {
      assert buckets[0] in buckets;
      assert forall b :: b in buckets[1..] ==> b in buckets;
    }
  }

  ghost predicate AreGroups(tasks: seq<Task>, month: Month, groups: seq<seq<Item>>, cap: nat) {
    |tasks| == |groups|
    && forall i :: 0 <= i < |groups| ==>
         groups[i] != [] && tasks[i] == GroupTask(month, groups[i]) && Sized(tasks[i], cap)
  }

  lemma {:induction false} GroupsCover(tasks: seq<Task>, month: Month, groups: seq<seq<Item>>, cap: nat, alias: string,
                                       m: Month)
    requires AreGroups(tasks, month, groups, cap)
    ensures Messages(tasks) == SumBy(Flatten(groups), ItemCount)
    ensures Cover(tasks, alias, m) == if m == month then SumBy(Flatten(groups), Named(alias)) else 0
    decreases |groups|
  {
    if groups != [] {
      GroupsCover(tasks[1..], month, groups[1..], cap, alias, m);
      SumByJoin(groups[0], Flatten(groups[1..]), ItemCount);
      SumByJoin(groups[0], Flatten(groups[1..]), Named(alias));
      GroupReads(month, groups[0], alias, m);
    }
  }

  lemma GroupsSnoc(tasks: seq<Task>, month: Month, groups: seq<seq<Item>>, cap: nat, items: seq<Item>)
    requires AreGroups(tasks, month, groups, cap)
    requires items != [] && SumBy(items, ItemCount) <= cap
    ensures AreGroups(tasks + [GroupTask(month, items)], month, groups + [items], cap)
    ensures Flatten(groups + [items]) == Flatten(groups) + items
  {
    FlattenSnoc(groups, items);
  }

  function Heaviest(bucket: Bucket): seq<Item> {
    SortByKey(bucket.items, (item: Item) => -(item.count as int))
  }

  /** All items of the bucket, larger counts before smaller ones. */
  ghost predicate HeaviestFirst(items: seq<Item>, all: seq<Item>) {
    multiset(items) == multiset(all) && forall i, j :: 0 <= i < j < |items| ==> items[i].count >= items[j].count
  }

  lemma HeaviestMeans(bucket: Bucket)
    ensures HeaviestFirst(Heaviest(bucket), bucket.items)
  {
    var key := (item: Item) => -(item.count as int);
    SortIsAscending(bucket.items, key);
    forall i, j | 0 <= i < j < |Heaviest(bucket)|
      ensures Heaviest(bucket)[i].count >= Heaviest(bucket)[j].count
    {
      assert key(Heaviest(bucket)[i]) <= key(Heaviest(bucket)[j]);
    }
  }

  /** The group stays within the limit, unless it is a single item. */
  ghost predicate FitsIn(group: seq<Item>, limit: nat) {
    |group| == 1 || SumBy(group, ItemCount) <= limit
  }

  /** No group could have taken the first item of the next one. */
  ghost predicate FilledUp(groups: seq<seq<Item>>, limit: nat) {
    && (forall group :: group in groups ==> group != [] && FitsIn(group, limit))
    && forall i :: 0 < i < |groups| ==>
         groups[i] != [] && SumBy(groups[i - 1], ItemCount) + groups[i][0].count > limit
  }

  lemma FilledNext(groups: seq<seq<Item>>, current: seq<Item>, limit: nat)
    requires FilledUp(groups, limit) && current != [] && FitsIn(current, limit)
    requires groups != [] ==> SumBy(groups[|groups| - 1], ItemCount) + current[0].count > limit
    ensures FilledUp(groups + [current], limit)
  {
    var all: seq<seq<Item>> := groups + [current];
    forall i | 0 < i < |all|
      ensures all[i] != [] && SumBy(all[i - 1], ItemCount) + all[i][0].count > limit
    {
      assert all[i - 1] == groups[i - 1];
      assert i < |groups| ==> all[i] == groups[i];
    }
  }

  /** The open group, and why it was opened. */
  ghost predicate OpenFills(groups: seq<seq<Item>>, current: seq<Item>, limit: nat) {
    && FilledUp(groups, limit) && (current != [] ==> FitsIn(current, limit))
    && (current != [] && groups != [] ==> SumBy(groups[|groups| - 1], ItemCount) + current[0].count > limit)
  }

  lemma OpenFillsNext(groups: seq<seq<Item>>, current: seq<Item>, item: Item, limit: nat)
    requires OpenFills(groups, current, limit) && (current != [] ==> SumBy(current, ItemCount) + item.count <= limit)
    requires current == [] && groups != [] ==> SumBy(groups[|groups| - 1], ItemCount) + item.count > limit
    ensures OpenFills(groups, current + [item], limit)
  {
    SumBySnoc(current, item, ItemCount);
  }

  /** Closing the open group, because the next item would not fit in. */
  lemma ClosedFills(groups: seq<seq<Item>>, current: seq<Item>, limit: nat)
    requires OpenFills(groups, current, limit) && current != []
    ensures FilledUp(groups + [current], limit) && OpenFills(groups + [current], [], limit)
  {
    FilledNext(groups, current, limit);
  }

  ghost predicate OfMonth(tasks: seq<Task>, month: Month) {
    forall t :: t in tasks ==> t.fromMonth == t.throughMonth == Some(month)
  }

  lemma GroupsOfMonth(tasks: seq<Task>, month: Month, groups: seq<seq<Item>>, cap: nat)
    requires AreGroups(tasks, month, groups, cap)
    ensures OfMonth(tasks, month)
  {
  }

  /** The bucket's items, heaviest first, in groups that each become one scope of the bucket's month. */
  method BucketTasks(bucket: Bucket, limit: nat, ghost cap: nat)
    returns (tasks: seq<Task>, ghost groups: seq<seq<Item>>)
    requires limit <= cap && forall item :: item in bucket.items ==> item.count <= cap
    ensures AreGroups(tasks, bucket.month, groups, cap) && Flatten(groups) == Heaviest(bucket)
    ensures OfMonth(tasks, bucket.month)
    ensures HeaviestFirst(Flatten(groups), bucket.items) && FilledUp(groups, limit)
  {
    var items := Heaviest(bucket);
    HeaviestMeans(bucket);
    SameMembers(items, bucket.items);
    tasks, groups := [], [];
    var current: seq<Item> := [];
    var running: nat := 0;
    for i := 0 to |items|
      invariant GroupedSoFar(items, i, bucket.month, tasks, groups, current, running, limit, cap)
      invariant i == 0 ==> groups == []
      invariant i > 0 ==> current != []
    {
      assert items[i] in items;
      if current != [] && running + items[i].count > limit {
        CloseStep(items, i, bucket.month, tasks, groups, current, running, limit, cap);
        tasks := tasks + [Task(Aliases(current), running, Titles(current), Some(bucket.month), Some(bucket.month))];
        groups := groups + [current];
        current, running := [], 0;
      }
      OpenStep(items, i, bucket.month, tasks, groups, current, running, limit, cap);
      current := current + [items[i]];
      running := running + items[i].count;
    }
    if current != [] {
      CloseStep(items, |items|, bucket.month, tasks, groups, current, running, limit, cap);
      tasks := tasks + [Task(Aliases(current), running, Titles(current), Some(bucket.month), Some(bucket.month))];
      groups := groups + [current];
    }
    AllGrouped(items, bucket.month, tasks, groups, limit, cap);
  }

  lemma AllGrouped(items: seq<Item>, month: Month, tasks: seq<Task>, groups: seq<seq<Item>>, limit: nat, cap: nat)
    requires GroupedSoFar(items, |items|, month, tasks, groups, [], 0, limit, cap)
    ensures AreGroups(tasks, month, groups, cap) && Flatten(groups) == items && OfMonth(tasks, month)
    ensures FilledUp(groups, limit)
  {
    assert items[..|items|] == items && Flatten(groups) + [] == Flatten(groups);
    GroupsOfMonth(tasks, month, groups, cap);
  }

  ghost predicate GroupedSoFar(items: seq<Item>, i: nat, month: Month, tasks: seq<Task>, groups: seq<seq<Item>>,
                               current: seq<Item>, running: nat, limit: nat, cap: nat) {
    && i <= |items| && Grouping(items[..i], month, tasks, groups, current, running, cap)
    && OpenFills(groups, current, limit)
  }

  lemma CloseStep(items: seq<Item>, i: nat, month: Month, tasks: seq<Task>, groups: seq<seq<Item>>, current: seq<Item>,
                  running: nat, limit: nat, cap: nat)
    requires GroupedSoFar(items, i, month, tasks, groups, current, running, limit, cap) && current != []
    ensures GroupedSoFar(items, i, month,
                         tasks + [Task(Aliases(current), running, Titles(current), Some(month), Some(month))],
                         groups + [current], [], 0, limit, cap)
    ensures running == SumBy(current, ItemCount) && FilledUp(groups + [current], limit)
  {
    CloseGroup(items[..i], month, tasks, groups, current, running, cap);
    ClosedFills(groups, current, limit);
  }

  lemma OpenStep(items: seq<Item>, i: nat, month: Month, tasks: seq<Task>, groups: seq<seq<Item>>, current: seq<Item>,
                 running: nat, limit: nat, cap: nat)
    requires GroupedSoFar(items, i, month, tasks, groups, current, running, limit, cap) && i < |items|
    requires limit <= cap && items[i].count <= cap && (current != [] ==> running + items[i].count <= limit)
    requires current == [] && groups != [] ==> SumBy(groups[|groups| - 1], ItemCount) + items[i].count > limit
    ensures GroupedSoFar(items, i + 1, month, tasks, groups, current + [items[i]], running + items[i].count, limit, cap)
  {
    OpenGroup(items, i, month, tasks, groups, current, running, cap);
    OpenFillsNext(groups, current, items[i], limit);
  }

  lemma CloseGroup(done: seq<Item>, month: Month, tasks: seq<Task>, groups: seq<seq<Item>>, current: seq<Item>,
                   running: nat, cap: nat)
    requires Grouping(done, month, tasks, groups, current, running, cap) && current != []
    ensures Grouping(done, month, tasks + [Task(Aliases(current), running, Titles(current), Some(month), Some(month))],
                     groups + [current], [], 0, cap)
  {
    GroupsSnoc(tasks, month, groups, cap, current);
    assert Flatten(groups + [current]) + [] == Flatten(groups) + current;
  }

  lemma OpenGroup(items: seq<Item>, i: nat, month: Month, tasks: seq<Task>, groups: seq<seq<Item>>, current: seq<Item>,
                  running: nat, cap: nat)
    requires i < |items| && Grouping(items[..i], month, tasks, groups, current, running, cap)
    requires running + items[i].count <= cap
    ensures Grouping(items[..i + 1], month, tasks, groups, current + [items[i]], running + items[i].count, cap)
  {
    SumBySnoc(current, items[i], ItemCount);
    assert Flatten(groups) + (current + [items[i]]) == Flatten(groups) + current + [items[i]];
    assert items[..i + 1] == items[..i] + [items[i]];
  }

  /** Closed groups and the open one together are the items so far. */
  ghost predicate Grouping(done: seq<Item>, month: Month, tasks: seq<Task>, groups: seq<seq<Item>>, current: seq<Item>,
                           running: nat, cap: nat) {
    running == SumBy(current, ItemCount) <= cap
    && AreGroups(tasks, month, groups, cap) && Flatten(groups) + current == done
  }

  lemma BucketCovers(bucket: Bucket, cap: nat, tasks: seq<Task>, groups: seq<seq<Item>>, alias: string, m: Month)
    requires AreGroups(tasks, bucket.month, groups, cap) && Flatten(groups) == Heaviest(bucket)
    ensures Messages(tasks) == BucketCount(bucket)
    ensures Cover(tasks, alias, m) == if m == bucket.month then SumBy(bucket.items, Named(alias)) else 0
  {
    GroupsCover(tasks, bucket.month, groups, cap, alias, m);
    SumByPermutation(Heaviest(bucket), bucket.items, ItemCount);
    SumByPermutation(Heaviest(bucket), bucket.items, Named(alias));
  }

  // ----- all tasks -----

  lemma {:induction false} ItemsOfMember(buckets: seq<Bucket>, b: Bucket)
    requires DistinctBy(buckets, BucketMonth) && b in buckets
    ensures ItemsOf(buckets, b.month) == b.items
  {
    if buckets[0] != b {
      var i :| 0 <= i < |buckets| && buckets[i] == b;
      assert BucketMonth(buckets[0]) != BucketMonth(buckets[i]);
      ItemsOfMember(buckets[1..], b);
    }
  }

  lemma {:induction false} ItemsOfAbsent(buckets: seq<Bucket>, month: Month)
    requires forall b :: b in buckets ==> b.month != month
    ensures ItemsOf(buckets, month) == []
  {
    if buckets != [] {
      ItemsOfAbsent(buckets[1..], month);
    }
  }

  lemma SameItems(a: seq<Bucket>, b: seq<Bucket>, month: Month)
    requires DistinctBy(a, BucketMonth) && multiset(a) == multiset(b)
    ensures ItemsOf(a, month) == ItemsOf(b, month)
  {
    DistinctPermutation(a, b, BucketMonth);
    SameMembers(a, b);
    if x :| x in a && x.month == month {
      ItemsOfMember(a, x);
      ItemsOfMember(b, x);
    } else {
      ItemsOfAbsent(a, month);
      ItemsOfAbsent(b, month);
    }
  }

  lemma ItemsOfNext(buckets: seq<Bucket>, i: nat, month: Month)
    requires DistinctBy(buckets, BucketMonth) && i < |buckets|
    ensures ItemsOf(buckets[..i + 1], month)
      == if month == buckets[i].month then buckets[i].items else ItemsOf(buckets[..i], month)
    ensures month == buckets[i].month ==> ItemsOf(buckets[..i], month) == []
  {
    var prefix := buckets[..i + 1];
    assert prefix[i] == buckets[i] && prefix == buckets[..i] + [buckets[i]];
    assert forall j :: 0 <= j < i ==> BucketMonth(buckets[j]) != BucketMonth(buckets[i]);
    if month == buckets[i].month {
      ItemsOfMember(prefix, buckets[i]);
      ItemsOfAbsent(buckets[..i], month);
    } else if x :| x in buckets[..i] && x.month == month {
      ItemsOfMember(prefix, x);
      ItemsOfMember(buckets[..i], x);
    } else {
      ItemsOfAbsent(prefix, month);
      ItemsOfAbsent(buckets[..i], month);
    }
  }

  /** 1 for a conversation that puts an item into this month's bucket. */
  function Gating(config: Config, alias: string, month: Month): Conversation -> nat {
    (c: Conversation) => if Gated(config, c) && c.alias == alias && HasMonth(KeptMonths(config, c), month) then 1 else 0
  }

  lemma {:induction false} GatingOnce(config: Config, cs: seq<Conversation>, c: Conversation, month: Month)
    requires DistinctAliases(cs) && c in cs
    ensures SumBy(cs, Gating(config, c.alias, month))
      == if Gated(config, c) && HasMonth(KeptMonths(config, c), month) then 1 else 0
  {
    if cs[0] == c {
      GatingNever(config, cs[1..], c.alias, month);
    } else {
      var i :| 0 <= i < |cs| && cs[i] == c;
      assert AliasOf(cs[0]) != AliasOf(cs[i]);
      GatingOnce(config, cs[1..], c, month);
    }
  }

  lemma {:induction false} GatingNever(config: Config, cs: seq<Conversation>, alias: string, month: Month)
    requires forall i :: 0 <= i < |cs| ==> AliasOf(cs[i]) != alias
    ensures SumBy(cs, Gating(config, alias, month)) == 0
  {
    if cs != [] {
      assert AliasOf(cs[0]) != alias;
      assert forall i :: 0 <= i < |cs[1..]| ==> AliasOf(cs[1..][i]) == AliasOf(cs[i + 1]);
      GatingNever(config, cs[1..], alias, month);
    }
  }

  /** A month that some chosen conversation keeps and the scope's window contains. */
  ghost predicate Grounded(config: Config, cs: seq<Conversation>, t: Task, alias: string) {
    exists c, m :: c in cs && c.alias == alias && HasMonth(KeptMonths(config, c), m) && InWindow(t, m)
  }

  ghost predicate GroundedTask(config: Config, cs: seq<Conversation>, t: Task) {
    t.conversations != [] && forall alias :: alias in t.conversations ==> Grounded(config, cs, t, alias)
  }

  /** Loop state of the first pass: whole and split conversations done, gated ones filed by month. */
  ghost predicate FirstPass(config: Config, cs: seq<Conversation>, cap: nat, tasks: seq<Task>, buckets: seq<Bucket>) {
    && DistinctBy(buckets, BucketMonth) && BucketsWithin(buckets, cap)
    && Messages(tasks) + SumBy(buckets, BucketCount) == SelectedTotal(config, cs)
    && (forall c, m :: c in cs && !Gated(config, c) && HasMonth(c.months, m) ==> Cover(tasks, c.alias, m) == 1)
    && (forall alias, m :: NamedIn(buckets, m, alias) == SumBy(cs, Gating(config, alias, m)))
    && forall t :: t in tasks ==> WholeTask(config, cs, t) && Sized(t, cap)
  }

  ghost predicate WholeTask(config: Config, cs: seq<Conversation>, t: Task) {
    exists c, m ::
      c in cs && !Gated(config, c) && t.conversations == [c.alias] && HasMonth(c.months, m) && InWindow(t, m)
  }

  lemma OwnTasksCover(config: Config, cs: seq<Conversation>, i: nat, cap: nat, tasks: seq<Task>, buckets: seq<Bucket>,
                      own: seq<Task>)
    requires DistinctAliases(cs) && i < |cs| && FirstPass(config, cs[..i], cap, tasks, buckets)
    requires !Gated(config, cs[i])
    requires Messages(own) == KeptSize(config, cs[i]) && ReadsOwnMonths(own, cs[i], cap)
    ensures FirstPass(config, cs[..i + 1], cap, tasks + own, buckets)
  {
    var done, c := cs[..i], cs[i];
    assert cs[..i + 1] == done + [c];
    SumBySnoc(done, c, SizeIn(config));
    SumByJoin(tasks, own, MessagesOf);
    forall d, m | d in done + [c] && !Gated(config, d) && HasMonth(d.months, m)
      ensures Cover(tasks + own, d.alias, m) == 1
    {
      OwnCoverOnce(config, cs, i, cap, tasks, buckets, own, d, m);
    }
    forall alias, m
      ensures NamedIn(buckets, m, alias) == SumBy(done + [c], Gating(config, alias, m))
    {
      SumBySnoc(done, c, Gating(config, alias, m));
    }
    forall t | t in tasks + own
      ensures WholeTask(config, done + [c], t) && Sized(t, cap)
    {
      if t in tasks {
        EarlierWhole(config, done, c, t);
      } else {
        OwnWhole(config, done, c, cap, own, t);
      }
    }
  }

  lemma EarlierWhole(config: Config, done: seq<Conversation>, c: Conversation, t: Task)
    requires WholeTask(config, done, t)
    ensures WholeTask(config, done + [c], t)
  {
  }

  lemma OwnWhole(config: Config, done: seq<Conversation>, c: Conversation, cap: nat, own: seq<Task>, t: Task)
    requires ReadsOwnMonths(own, c, cap) && t in own && !Gated(config, c)
    ensures WholeTask(config, done + [c], t)
  {
    assert ReadsSome(t, c);
    assert c in done + [c];
  }

  lemma OwnCoverOnce(config: Config, cs: seq<Conversation>, i: nat, cap: nat, tasks: seq<Task>, buckets: seq<Bucket>,
                     own: seq<Task>,
                     d: Conversation, m: Month)
    requires DistinctAliases(cs) && i < |cs| && FirstPass(config, cs[..i], cap, tasks, buckets)
    requires ReadsOwnMonths(own, cs[i], cap)
    requires (d in cs[..i] || d == cs[i]) && !Gated(config, d) && HasMonth(d.months, m)
    ensures Cover(tasks + own, d.alias, m) == 1
  {
    SumByJoin(tasks, own, Reader(d.alias, m));
    if d in cs[..i] {
      OtherAlias(cs, i, d);
      NotCovered(own, d.alias, m);
    } else {
      EarlierTasksNameOthers(config, cs, i, tasks, cap, buckets);
      NotCovered(tasks, d.alias, m);
    }
  }

  lemma OtherAlias(cs: seq<Conversation>, i: nat, d: Conversation)
    requires DistinctAliases(cs) && i < |cs| && d in cs[..i]
    ensures d.alias != cs[i].alias
  {
    var j :| 0 <= j < i && cs[..i][j] == d;
    assert AliasOf(cs[j]) != AliasOf(cs[i]);
  }

  lemma EarlierTasksNameOthers(config: Config, cs: seq<Conversation>, i: nat, tasks: seq<Task>, cap: nat,
                               buckets: seq<Bucket>)
    requires DistinctAliases(cs) && i < |cs| && FirstPass(config, cs[..i], cap, tasks, buckets)
    ensures forall t :: t in tasks ==> cs[i].alias !in t.conversations
  {
    forall t | t in tasks
      ensures cs[i].alias !in t.conversations
    {
      assert WholeTask(config, cs[..i], t);
      var d, m :| d in cs[..i] && !Gated(config, d) && t.conversations == [d.alias] && HasMonth(d.months, m)
        && InWindow(t, m);
      OtherAlias(cs, i, d);
    }
  }

  lemma FiledCovers(config: Config, cs: seq<Conversation>, i: nat, cap: nat, tasks: seq<Task>, buckets: seq<Bucket>,
                    filed: seq<Bucket>)
    requires DistinctAliases(cs) && i < |cs| && FirstPass(config, cs[..i], cap, tasks, buckets)
    requires Gated(config, cs[i]) && Filing(buckets, filed, cs[i].alias, KeptMonths(config, cs[i]), cap)
    ensures FirstPass(config, cs[..i + 1], cap, tasks, filed)
  {
    var done, c := cs[..i], cs[i];
    assert cs[..i + 1] == done + [c];
    SumBySnoc(done, c, SizeIn(config));
    forall alias, m
      ensures NamedIn(filed, m, alias) == SumBy(done + [c], Gating(config, alias, m))
    {
      SumBySnoc(done, c, Gating(config, alias, m));
      assert NamedIn(filed, m, alias)
        == NamedIn(buckets, m, alias) + (if alias == c.alias && HasMonth(KeptMonths(config, c), m) then 1 else 0);
    }
    forall t | t in tasks
      ensures WholeTask(config, done + [c], t)
    {
      assert WholeTask(config, done, t);
    }
  }

  /** Scopes that read each month of one ungated conversation once. */
  ghost predicate ReadsOwnMonths(own: seq<Task>, c: Conversation, cap: nat) {
    && (forall m :: HasMonth(c.months, m) ==> Cover(own, c.alias, m) == 1)
    && forall t :: t in own ==> t.conversations == [c.alias] && Sized(t, cap) && ReadsSome(t, c)
  }

  ghost predicate ReadsSome(t: Task, c: Conversation) {
    exists m :: HasMonth(c.months, m) && InWindow(t, m)
  }

  /** A split conversation's tasks, or its one whole task. */
  method OwnTasks(config: Config, c: Conversation, limit: nat, ghost cap: nat) returns (own: seq<Task>)
    requires limit <= cap && MonthsWithin(c.months, cap)
    requires WellFormed(c) && !Gated(config, c) && KeptSize(config, c) != 0
    ensures Messages(own) == KeptSize(config, c) && ReadsOwnMonths(own, c, cap)
    ensures KeptSize(config, c) <= limit ==> forall t :: t in own ==> t.fromMonth == t.throughMonth == None
  {
    var size := KeptSize(config, c);
    if size > limit {
      ghost var pieces;
      own, pieces := SplitConversation(c, limit);
      SplitReadsOwnMonths(own, c, pieces, limit, cap);
    } else {
      own := [Task([c.alias], size, [c.title], None, None)];
      WholeReadsOwnMonths(own[0], c, cap);
      assert own == [own[0]];
    }
  }

  lemma WholeReadsOwnMonths(t: Task, c: Conversation, cap: nat)
    requires t.conversations == [c.alias] && t.fromMonth == t.throughMonth == None && t.messages <= cap
      && c.months != []
    ensures ReadsOwnMonths([t], c, cap) && Messages([t]) == t.messages
  {
    assert [] + [t] == [t];
    SumBySnoc([], t, MessagesOf);
    forall m
      ensures Cover([t], c.alias, m) == 1
    {
      SumBySnoc([], t, Reader(c.alias, m));
      assert Occurrences([c.alias], c.alias) == 1;
    }
    assert HasMonth(c.months, c.months[0].month);
  }

  lemma SplitReadsOwnMonths(own: seq<Task>, c: Conversation, pieces: seq<seq<MonthCount>>, limit: nat, cap: nat)
    requires AreTasksOf(own, c, pieces) && IsPartition(pieces, Chronological(c), limit) && DistinctMonths(c.months)
    requires limit <= cap && MonthsWithin(c.months, cap)
    ensures ReadsOwnMonths(own, c, cap) && Messages(own) == Total(c.months)
  {
    ChronologicalMonths(c);
    RangeMessages(own, c, pieces);
    forall m | HasMonth(c.months, m)
      ensures Cover(own, c.alias, m) == 1
    {
      var i :| 0 <= i < |Chronological(c)| && Chronological(c)[i].month == m;
      RangesCoverOnce(own, c, pieces, Chronological(c)[i]);
    }
    forall t | t in own
      ensures t.conversations == [c.alias] && Sized(t, cap) && ReadsSome(t, c)
    {
      var i :| 0 <= i < |own| && own[i] == t;
      assert pieces[i] in pieces;
      RangeHasMonth(c, pieces, i);
      SameMembers(c.months, Chronological(c));
      if |pieces[i]| == 1 {
        MemberOfFlatten(pieces, i, pieces[i][0]);
        SumBySnoc([], pieces[i][0], CountOfMonth);
        assert pieces[i] == [] + [pieces[i][0]];
      }
    }
  }

  lemma RangeHasMonth(c: Conversation, pieces: seq<seq<MonthCount>>, i: nat)
    requires i < |pieces| && pieces[i] != [] && Flatten(pieces) == Chronological(c)
    requires DistinctMonths(c.months)
    ensures ReadsSome(PieceTask(c, pieces[i]), c)
  {
    ChronologicalMonths(c);
    var sorted, piece := Chronological(c), pieces[i];
    var k := PieceStart(pieces, i);
    assert piece[0] == sorted[k] && piece[|piece| - 1] == sorted[k + |piece| - 1];
    assert HasMonth(sorted, piece[0].month);
  }

  lemma {:induction false} PieceStart<T>(parts: seq<seq<T>>, i: nat) returns (k: nat)
    requires i < |parts|
    ensures k + |parts[i]| <= |Flatten(parts)| && parts[i] == Flatten(parts)[k..k + |parts[i]|]
  {
    if i == 0 {
      k := 0;
    } else {
      k := PieceStart(parts[1..], i - 1);
      var rest := Flatten(parts[1..]);
      assert parts[1..][i - 1] == parts[i] == rest[k..k + |parts[i]|];
      k := |parts[0]| + k;
    }
  }

  method FirstTasks(config: Config, cs: seq<Conversation>, limit: nat, ghost cap: nat)
    returns (tasks: seq<Task>, buckets: seq<Bucket>)
    requires limit <= cap && forall c :: c in cs ==> MonthsWithin(KeptMonths(config, c), cap)
    requires DistinctAliases(cs) && forall c :: c in cs ==> WellFormed(c) && KeptSize(config, c) != 0
    ensures FirstPass(config, cs, cap, tasks, buckets) && OwnWindows(config, cs, limit, tasks)
  {
    tasks, buckets := [], [];
    for i := 0 to |cs|
      invariant FirstPass(config, cs[..i], cap, tasks, buckets) && OwnWindows(config, cs[..i], limit, tasks)
    {
      if Gated(config, cs[i]) {
        var filed := FileMonths(config, cs[i], buckets, cap);
        FiledCovers(config, cs, i, cap, tasks, buckets, filed);
        OwnWindowsGrow(config, cs, i, cap, limit, tasks, buckets, []);
        assert tasks + [] == tasks;
        buckets := filed;
      } else {
        var own := OwnTasks(config, cs[i], limit, cap);
        OwnTasksCover(config, cs, i, cap, tasks, buckets, own);
        OwnWindowsGrow(config, cs, i, cap, limit, tasks, buckets, own);
        tasks := tasks + own;
      }
    }
    assert cs[..|cs|] == cs;
  }

  /** Where a task names a conversation, its window is the one the planner gives such conversations. */
  ghost predicate FittingWindow(config: Config, c: Conversation, limit: nat, t: Task) {
    if Gated(config, c) then t.fromMonth.Some? && t.fromMonth == t.throughMonth
    else KeptSize(config, c) <= limit ==> t.fromMonth == t.throughMonth == None
  }

  /** Gated conversations are read month by month, others without bounds unless they are larger than the limit. */
  ghost predicate FittingWindows(config: Config, cs: seq<Conversation>, limit: nat, tasks: seq<Task>) {
    forall c, t :: c in cs && t in tasks && c.alias in t.conversations ==> FittingWindow(config, c, limit, t)
  }

  /** The tasks of the first pass name ungated conversations only. */
  ghost predicate OwnWindows(config: Config, cs: seq<Conversation>, limit: nat, tasks: seq<Task>) {
    forall c, t :: c in cs && t in tasks && c.alias in t.conversations ==>
      !Gated(config, c) && FittingWindow(config, c, limit, t)
  }

  lemma OwnWindowsGrow(config: Config, cs: seq<Conversation>, i: nat, cap: nat, limit: nat, tasks: seq<Task>,
                       buckets: seq<Bucket>,
                       own: seq<Task>)
    requires DistinctAliases(cs) && i < |cs| && FirstPass(config, cs[..i], cap, tasks, buckets)
    requires OwnWindows(config, cs[..i], limit, tasks)
    requires own != [] ==> !Gated(config, cs[i])
    requires forall t :: t in own ==> t.conversations == [cs[i].alias]
    requires KeptSize(config, cs[i]) <= limit ==> forall t :: t in own ==> t.fromMonth == t.throughMonth == None
    ensures OwnWindows(config, cs[..i + 1], limit, tasks + own)
  {
    assert cs[..i + 1] == cs[..i] + [cs[i]];
    EarlierTasksNameOthers(config, cs, i, tasks, cap, buckets);
    forall c, t | c in cs[..i + 1] && t in tasks + own && c.alias in t.conversations
      ensures !Gated(config, c) && FittingWindow(config, c, limit, t)
    {
      if c in cs[..i] {
        OtherAlias(cs, i, c);
      }
    }
  }

  lemma SecondWindows(config: Config, cs: seq<Conversation>, limit: nat, buckets: seq<Bucket>, second: seq<Task>)
    requires DistinctAliases(cs)
    requires forall alias, m :: NamedIn(buckets, m, alias) == SumBy(cs, Gating(config, alias, m))
    requires forall alias, m :: Cover(second, alias, m) == NamedIn(buckets, m, alias)
    requires forall t :: t in second ==> t.fromMonth.Some? && t.fromMonth == t.throughMonth
    ensures FittingWindows(config, cs, limit, second)
  {
    forall c, t | c in cs && t in second && c.alias in t.conversations
      ensures FittingWindow(config, c, limit, t)
    {
      var m := t.fromMonth.value;
      MemberReads(second, t, c.alias, m);
      assert Cover(second, c.alias, m) == NamedIn(buckets, m, c.alias);
      var d := GatedSource(config, cs, c.alias, m);
      SameAlias(cs, c, d);
    }
  }

  lemma SameAlias(cs: seq<Conversation>, c: Conversation, d: Conversation)
    requires DistinctAliases(cs) && c in cs && d in cs && c.alias == d.alias
    ensures c == d
  {
    var i :| 0 <= i < |cs| && cs[i] == c;
    var j :| 0 <= j < |cs| && cs[j] == d;
    assert i < j ==> AliasOf(cs[i]) != AliasOf(cs[j]);
    assert j < i ==> AliasOf(cs[j]) != AliasOf(cs[i]);
  }

  method MonthTasks(buckets: seq<Bucket>, limit: nat, ghost cap: nat) returns (tasks: seq<Task>)
    requires limit <= cap && DistinctBy(buckets, BucketMonth) && BucketsWithin(buckets, cap)
    ensures Messages(tasks) == SumBy(buckets, BucketCount)
    ensures forall alias, m :: Cover(tasks, alias, m) == NamedIn(buckets, m, alias)
    ensures forall t :: t in tasks ==>
      t.conversations != [] && t.fromMonth.Some? && t.fromMonth == t.throughMonth && Sized(t, cap)
  {
    var sorted := SortByKey(buckets, (b: Bucket) => b.month);
    DistinctPermutation(buckets, sorted, BucketMonth);
    SameMembers(buckets, sorted);
    tasks := [];
    for i := 0 to |sorted|
      invariant Messages(tasks) == SumBy(sorted[..i], BucketCount)
      invariant forall alias, m :: Cover(tasks, alias, m) == NamedIn(sorted[..i], m, alias)
      invariant forall t :: t in tasks ==>
        t.conversations != [] && t.fromMonth.Some? && t.fromMonth == t.throughMonth && Sized(t, cap)
    {
      assert sorted[i] in buckets;
      var own, groups := BucketTasks(sorted[i], limit, cap);
      NextBucket(sorted, i, cap, tasks, own, groups);
      tasks := tasks + own;
    }
    assert sorted[..|sorted|] == sorted;
    SumByPermutation(sorted, buckets, BucketCount);
    forall alias, m
      ensures Cover(tasks, alias, m) == NamedIn(buckets, m, alias)
    {
      SameItems(buckets, sorted, m);
    }
  }

  lemma NextBucket(buckets: seq<Bucket>, i: nat, cap: nat, tasks: seq<Task>, own: seq<Task>, groups: seq<seq<Item>>)
    requires DistinctBy(buckets, BucketMonth) && i < |buckets|
    requires Messages(tasks) == SumBy(buckets[..i], BucketCount)
    requires forall alias, m :: Cover(tasks, alias, m) == NamedIn(buckets[..i], m, alias)
    requires AreGroups(own, buckets[i].month, groups, cap) && Flatten(groups) == Heaviest(buckets[i])
    ensures Messages(tasks + own) == SumBy(buckets[..i + 1], BucketCount)
    ensures forall alias, m :: Cover(tasks + own, alias, m) == NamedIn(buckets[..i + 1], m, alias)
  {
    assert buckets[..i + 1] == buckets[..i] + [buckets[i]];
    SumBySnoc(buckets[..i], buckets[i], BucketCount);
    SumByJoin(tasks, own, MessagesOf);
    BucketCovers(buckets[i], cap, own, groups, "", 0);
    forall alias, m
      ensures Cover(tasks + own, alias, m) == NamedIn(buckets[..i + 1], m, alias)
    {
      SumByJoin(tasks, own, Reader(alias, m));
      BucketCovers(buckets[i], cap, own, groups, alias, m);
      ItemsOfNext(buckets, i, m);
      assert Cover(tasks, alias, m) == NamedIn(buckets[..i], m, alias);
    }
  }

  /** Every kept conversation-month in exactly one scope, nothing else gated, no message lost. */
  ghost predicate ExactTasks(config: Config, cs: seq<Conversation>, tasks: seq<Task>) {
    && Messages(tasks) == SelectedTotal(config, cs)
    && (forall c, m :: c in cs && HasMonth(KeptMonths(config, c), m) ==> Cover(tasks, c.alias, m) == 1)
    && (forall c, m :: c in cs && Gated(config, c) && !HasMonth(KeptMonths(config, c), m) ==>
        Cover(tasks, c.alias, m) == 0)
    && forall t :: t in tasks ==> GroundedTask(config, cs, t)
  }

  method CutTasks(config: Config, cs: seq<Conversation>, limit: nat, ghost cap: nat) returns (tasks: seq<Task>)
    requires limit <= cap && forall c :: c in cs ==> MonthsWithin(KeptMonths(config, c), cap)
    requires DistinctAliases(cs) && forall c :: c in cs ==> WellFormed(c) && KeptSize(config, c) != 0
    ensures ExactTasks(config, cs, tasks) && FittingWindows(config, cs, limit, tasks)
    ensures forall t :: t in tasks ==> Sized(t, cap)
  {
    var first, buckets := FirstTasks(config, cs, limit, cap);
    var second := MonthTasks(buckets, limit, cap);
    tasks := first + second;
    PassesAreExact(config, cs, cap, first, buckets, second);
    SecondWindows(config, cs, limit, buckets, second);
  }

  lemma PassesAreExact(config: Config, cs: seq<Conversation>, cap: nat, first: seq<Task>, buckets: seq<Bucket>,
                       second: seq<Task>)
    requires DistinctAliases(cs) && FirstPass(config, cs, cap, first, buckets)
    requires Messages(second) == SumBy(buckets, BucketCount)
    requires forall alias, m :: Cover(second, alias, m) == NamedIn(buckets, m, alias)
    requires forall t :: t in second ==> t.conversations != [] && t.fromMonth.Some? && t.fromMonth == t.throughMonth
    ensures ExactTasks(config, cs, first + second)
  {
    SumByJoin(first, second, MessagesOf);
    forall c, m | c in cs && (HasMonth(KeptMonths(config, c), m) || Gated(config, c))
      ensures Cover(first + second, c.alias, m) == if HasMonth(KeptMonths(config, c), m) then 1 else 0
    {
      SumByJoin(first, second, Reader(c.alias, m));
      GatingOnce(config, cs, c, m);
      assert Cover(second, c.alias, m) == NamedIn(buckets, m, c.alias);
      if Gated(config, c) {
        GatedNotInFirst(config, cs, cap, first, buckets, c);
        NotCovered(first, c.alias, m);
      }
    }
    forall t, alias | t in first + second && alias in t.conversations
      ensures Grounded(config, cs, t, alias)
    {
      if t in first {
        assert WholeTask(config, cs, t);
        var c, m :| c in cs && !Gated(config, c) && t.conversations == [c.alias] && HasMonth(c.months, m)
          && InWindow(t, m);
        assert HasMonth(KeptMonths(config, c), m);
      } else {
        var m := t.fromMonth.value;
        MemberReads(second, t, alias, m);
        assert Cover(second, alias, m) == NamedIn(buckets, m, alias);
        var c := GatedSource(config, cs, alias, m);
        assert InWindow(t, m);
      }
    }
    forall t | t in first
      ensures t.conversations != []
    {
      assert WholeTask(config, cs, t);
    }
  }

  lemma GatedNotInFirst(config: Config, cs: seq<Conversation>, cap: nat, first: seq<Task>, buckets: seq<Bucket>,
                        c: Conversation)
    requires DistinctAliases(cs) && FirstPass(config, cs, cap, first, buckets) && c in cs && Gated(config, c)
    ensures forall t :: t in first ==> c.alias !in t.conversations
  {
    forall t | t in first
      ensures c.alias !in t.conversations
    {
      assert WholeTask(config, cs, t);
      var d, m :| d in cs && !Gated(config, d) && t.conversations == [d.alias] && HasMonth(d.months, m)
        && InWindow(t, m);
      var i :| 0 <= i < |cs| && cs[i] == c;
      var j :| 0 <= j < |cs| && cs[j] == d;
      assert i != j && AliasOf(cs[i]) != AliasOf(cs[j]);
    }
  }

  lemma {:induction false} GatedSource(config: Config, cs: seq<Conversation>, alias: string, month: Month)
    returns (c: Conversation)
    requires 0 < SumBy(cs, Gating(config, alias, month))
    ensures c in cs && c.alias == alias && Gated(config, c) && HasMonth(KeptMonths(config, c), month)
  {
    if Gating(config, alias, month)(cs[0]) == 0 {
      c := GatedSource(config, cs[1..], alias, month);
    } else {
      c := cs[0];
    }
  }

  lemma MemberReads(tasks: seq<Task>, t: Task, alias: string, month: Month)
    requires t in tasks && alias in t.conversations && InWindow(t, month)
    ensures Occurrences(t.conversations, alias) <= Cover(tasks, alias, month)
    ensures 0 < Cover(tasks, alias, month)
  {
    var i :| 0 <= i < |tasks| && tasks[i] == t;
    SumByRemoveAt(tasks, i, Reader(alias, month));
    OccursOrNot(t.conversations, alias);
  }
}
